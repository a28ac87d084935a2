/**
 * Python's insertion-ordered `dict`, as a sequence of (key, value) pairs.
 * Assigning to a present key keeps its position and replaces its value;
 * assigning to a new key appends it.
 */
module PyDict {
  import opened Wrappers

  type Dict<K, V> = seq<(K, V)>

  function Keys<K, V>(d: Dict<K, V>): (ks: seq<K>)
    ensures |ks| == |d|
    ensures forall i :: 0 <= i < |d| ==> ks[i] == d[i].0
  {
    seq(|d|, i requires 0 <= i < |d| => d[i].0)
  }

  function Values<K, V>(d: Dict<K, V>): (vs: seq<V>)
    ensures |vs| == |d|
    ensures forall i :: 0 <= i < |d| ==> vs[i] == d[i].1
  {
    seq(|d|, i requires 0 <= i < |d| => d[i].1)
  }

  predicate Distinct<K(==)>(ks: seq<K>)
  {
    forall i, j :: 0 <= i < j < |ks| ==> ks[i] != ks[j]
  }

  /** Every Python dict has distinct keys. */
  predicate IsDict<K(==), V>(d: Dict<K, V>)
  {
    Distinct(Keys(d))
  }

  /** `d.get(k)` */
  function Get<K(==), V>(d: Dict<K, V>, k: K): (r: Option<V>)
    ensures r.Some? <==> k in Keys(d)
  {
    if d == [] then None
    else if d[0].0 == k then Some(d[0].1)
    else (assert Keys(d[1..]) == Keys(d)[1..]; Get(d[1..], k))
  }

  /** `d[k] = v` */
  function Set<K(==), V>(d: Dict<K, V>, k: K, v: V): Dict<K, V>
  {
    if d == [] then [(k, v)]
    else if d[0].0 == k then [(k, v)] + d[1..]
    else [d[0]] + Set(d[1..], k, v)
  }

  /** `d.pop(k)`, the dict that is left */
  function Remove<K(==), V>(d: Dict<K, V>, k: K): Dict<K, V>
  {
    if d == [] then []
    else if d[0].0 == k then Remove(d[1..], k)
    else [d[0]] + Remove(d[1..], k)
  }

  /** `dict(pairs)`: later pairs overwrite earlier ones with the same key. */
  function FromPairs<K(==), V>(ps: seq<(K, V)>): Dict<K, V>
  {
    if ps == [] then [] else Set(FromPairs(ps[..|ps| - 1]), ps[|ps| - 1].0, ps[|ps| - 1].1)
  }

  /** Assignment keeps the key order, appending a new key at the end, and keeps keys distinct. */
  lemma SetKeys<K, V>(d: Dict<K, V>, k: K, v: V)
    ensures Keys(Set(d, k, v)) == if k in Keys(d) then Keys(d) else Keys(d) + [k]
    ensures IsDict(d) ==> IsDict(Set(d, k, v))
  {
    SetKeyOrder(d, k, v);
    if IsDict(d) && k !in Keys(d) {
      var ks := Keys(d) + [k];
      assert forall i :: 0 <= i < |Keys(d)| ==> ks[i] == Keys(d)[i];
    }
  }

  lemma {:induction false} SetKeyOrder<K, V>(d: Dict<K, V>, k: K, v: V)
    ensures Keys(Set(d, k, v)) == if k in Keys(d) then Keys(d) else Keys(d) + [k]
  {
    if d == [] {
    } else if d[0].0 == k {
      assert Keys(Set(d, k, v)) == Keys(d);
    } else {
      var t := Set(d[1..], k, v);
      SetKeyOrder(d[1..], k, v);
      assert Keys(d) == [d[0].0] + Keys(d[1..]);
      assert Keys([d[0]] + t) == [d[0].0] + Keys(t);
      assert k in Keys(d) <==> k in Keys(d[1..]);
    }
  }

  /** After `d[k] = v`, looking up `k` gives `v` and every other key is untouched. */
  lemma {:induction false} SetGet<K, V>(d: Dict<K, V>, k: K, v: V, k': K)
    ensures Get(Set(d, k, v), k') == if k' == k then Some(v) else Get(d, k')
  {
    if d != [] && d[0].0 != k {
      SetGet(d[1..], k, v, k');
      assert Set(d, k, v)[1..] == Set(d[1..], k, v);
    } else if d != [] {
      assert Set(d, k, v)[1..] == d[1..];
    }
  }

  /** `d.pop(k)` removes exactly the key `k`, keeping the order of the rest. */
  lemma {:induction false} RemoveKeys<K, V>(d: Dict<K, V>, k: K, k': K)
    ensures k !in Keys(Remove(d, k))
    ensures k' != k ==> (k' in Keys(Remove(d, k)) <==> k' in Keys(d))
    ensures k' != k ==> Get(Remove(d, k), k') == Get(d, k')
  {
    if d != [] {
      RemoveKeys(d[1..], k, k');
      assert Keys(d) == [d[0].0] + Keys(d[1..]);
      if d[0].0 != k {
        assert Keys(Remove(d, k)) == [d[0].0] + Keys(Remove(d[1..], k));
        assert Remove(d, k)[1..] == Remove(d[1..], k);
      }
    }
  }

  /** The value of `k` in `dict(pairs)` is the one of the last pair with key `k`. */
  lemma {:induction false} FromPairsGet<K, V>(ps: seq<(K, V)>, k: K)
    ensures Get(FromPairs(ps), k).Some? <==> exists i :: 0 <= i < |ps| && ps[i].0 == k
    ensures forall i :: 0 <= i < |ps| && ps[i].0 == k && (forall j :: i < j < |ps| ==> ps[j].0 != k) ==>
      Get(FromPairs(ps), k) == Some(ps[i].1)
  {
    if ps != [] {
      var pre := ps[..|ps| - 1];
      FromPairsGet(pre, k);
      SetGet(FromPairs(pre), ps[|ps| - 1].0, ps[|ps| - 1].1, k);
      forall i | 0 <= i < |ps| - 1 ensures pre[i] == ps[i] {}
      if exists i :: 0 <= i < |ps| && ps[i].0 == k {
        var i :| 0 <= i < |ps| && ps[i].0 == k;
        if i < |ps| - 1 { assert pre[i].0 == k; }
      }
    }
  }

  /** With distinct keys, `dict(pairs)` is the pairs themselves, in order. */
  lemma {:induction false} FromPairsDistinct<K, V>(ps: seq<(K, V)>)
    requires Distinct(Keys(ps))
    ensures FromPairs(ps) == ps
  {
    if ps != [] {
      var pre := ps[..|ps| - 1];
      var last := ps[|ps| - 1];
      assert Keys(pre) == Keys(ps)[..|ps| - 1];
      FromPairsDistinct(pre);
      assert forall i :: 0 <= i < |pre| ==> Keys(pre)[i] == Keys(ps)[i];
      assert last.0 !in Keys(pre);
      SetAppends(pre, last.0, last.1);
      assert pre + [last] == ps;
    }
  }

  /** Assigning a key that is not present appends it. */
  lemma {:induction false} SetAppends<K, V>(d: Dict<K, V>, k: K, v: V)
    requires k !in Keys(d)
    ensures Set(d, k, v) == d + [(k, v)]
  {
    if d != [] {
      assert Keys(d) == [d[0].0] + Keys(d[1..]);
      SetAppends(d[1..], k, v);
      assert [d[0]] + (d[1..] + [(k, v)]) == d + [(k, v)];
    }
  }
}
