/** Python's insertion-ordered `dict`, as an association list of
    (key, value) pairs in insertion order. */
module Dict {
  import opened Values
  import opened Seqs

  /** The keys in iteration order. */
  function Keys<K, V>(d: seq<(K, V)>): (ks: seq<K>)
    ensures |ks| == |d|
    ensures forall i :: 0 <= i < |d| ==> ks[i] == d[i].0
  {
    seq(|d|, i requires 0 <= i < |d| => d[i].0)
  }

  /** A well-formed dictionary holds each key once. */
  predicate Wf<K(==), V>(d: seq<(K, V)>) {
    Distinct(Keys(d))
  }

  /** `d.get(k)`: the value stored under `k`, if any. */
  function Get<K(==), V>(d: seq<(K, V)>, k: K): (r: Option<V>)
    ensures r.None? <==> k !in Keys(d)
  {
    if |d| == 0 then None
    else if d[0].0 == k then Some(d[0].1)
    else
      assert Keys(d) == [d[0].0] + Keys(d[1..]);
      Get(d[1..], k)
  }

  /** `d[k] = v`: an existing key keeps its position and takes the new
      value, a new key is appended; no other key changes. */
  function Put<K(==,!new), V>(d: seq<(K, V)>, k: K, v: V): (r: seq<(K, V)>)
    ensures Keys(r) == if k in Keys(d) then Keys(d) else Keys(d) + [k]
    ensures Get(r, k) == Some(v)
    ensures forall k' :: k' != k ==> Get(r, k') == Get(d, k')
  {
    if |d| == 0 then [(k, v)]
    else
      assert d == [d[0]] + d[1..];
      if d[0].0 == k then
        ReplaceHead(d[0], d[1..], v);
        [(k, v)] + d[1..]
      else
        var rest := Put(d[1..], k, v);
        ConsPut(d[0], d[1..], rest, k, v);
        [d[0]] + rest
  }

  lemma ReplaceHead<K(!new), V>(x: (K, V), d: seq<(K, V)>, v: V)
    ensures Keys([(x.0, v)] + d) == Keys([x] + d)
    ensures Get([(x.0, v)] + d, x.0) == Some(v)
    ensures forall k' :: k' != x.0 ==> Get([(x.0, v)] + d, k') == Get([x] + d, k')
  {
    KeysCons(x, d);
    KeysCons((x.0, v), d);
    GetCons(x, d);
    GetCons((x.0, v), d);
  }

  lemma ConsPut<K(!new), V>(x: (K, V), d: seq<(K, V)>, r: seq<(K, V)>, k: K, v: V)
    requires x.0 != k
    requires Keys(r) == if k in Keys(d) then Keys(d) else Keys(d) + [k]
    requires Get(r, k) == Some(v)
    requires forall k' :: k' != k ==> Get(r, k') == Get(d, k')
    ensures Keys([x] + r) == if k in Keys([x] + d) then Keys([x] + d) else Keys([x] + d) + [k]
    ensures Get([x] + r, k) == Some(v)
    ensures forall k' :: k' != k ==> Get([x] + r, k') == Get([x] + d, k')
  {
    KeysCons(x, d);
    KeysCons(x, r);
    GetCons(x, d);
    GetCons(x, r);
  }

  lemma KeysCons<K, V>(x: (K, V), d: seq<(K, V)>)
    ensures Keys([x] + d) == [x.0] + Keys(d)
  {
  }

  lemma GetCons<K(!new), V>(x: (K, V), d: seq<(K, V)>)
    ensures forall k :: Get([x] + d, k) == if x.0 == k then Some(x.1) else Get(d, k)
  {
    assert ([x] + d)[1..] == d;
  }

  /** Storing keeps every key unique. */
  lemma PutWf<K(!new), V>(d: seq<(K, V)>, k: K, v: V)
    requires Wf(d)
    ensures Wf(Put(d, k, v))
  {
    var ks := Keys(d);
    if k !in ks {
      forall i, j | 0 <= i < j < |ks| + 1
        ensures (ks + [k])[i] != (ks + [k])[j]
      {
        if j == |ks| {
          assert (ks + [k])[j] == k;
          assert (ks + [k])[i] == ks[i];
        }
      }
    }
  }

  /** In a well-formed dictionary every stored pair is what `get` finds. */
  lemma {:induction false} GetStored<K, V>(d: seq<(K, V)>, i: nat)
    requires Wf(d)
    requires i < |d|
    ensures Get(d, d[i].0) == Some(d[i].1)
  {
    if i > 0 {
      assert d[0].0 != d[i].0;
      assert Keys(d[1..]) == Keys(d)[1..];
      GetStored(d[1..], i - 1);
    }
  }

  /** `get` finds the first pair stored under a key. */
  lemma {:induction false} GetFirst<K, V>(d: seq<(K, V)>, i: nat)
    requires i < |d|
    requires forall j :: 0 <= j < i ==> d[j].0 != d[i].0
    ensures Get(d, d[i].0) == Some(d[i].1)
  {
    if i > 0 {
      assert d[1..][i - 1] == d[i];
      GetFirst(d[1..], i - 1);
    }
  }

  /** What `get` finds is stored in the dictionary. */
  lemma {:induction false} GetFound<K, V>(d: seq<(K, V)>, k: K)
    requires Get(d, k).Some?
    ensures (k, Get(d, k).value) in d
  {
    if d[0].0 != k {
      GetFound(d[1..], k);
    }
  }

  /** Membership of a pair in a well-formed dictionary is exactly what
      `get` reports. */
  lemma GetIffMember<K, V>(d: seq<(K, V)>, k: K, v: V)
    requires Wf(d)
    ensures (k, v) in d <==> Get(d, k) == Some(v)
  {
    if (k, v) in d {
      var i :| 0 <= i < |d| && d[i] == (k, v);
      GetStored(d, i);
    }
    if Get(d, k) == Some(v) {
      GetFound(d, k);
    }
  }

  /** Storing the value a key already holds changes nothing. */
  lemma {:induction false} PutStored<K(!new), V>(d: seq<(K, V)>, k: K, v: V)
    requires Wf(d)
    requires Get(d, k) == Some(v)
    ensures Put(d, k, v) == d
  {
    assert d == [d[0]] + d[1..];
    GetCons(d[0], d[1..]);
    if d[0].0 != k {
      KeysCons(d[0], d[1..]);
      assert Wf(d[1..]);
      PutStored(d[1..], k, v);
    }
  }

  /** Distinct keys make distinct pairs. */
  lemma WfDistinct<K, V>(d: seq<(K, V)>)
    requires Wf(d)
    ensures Distinct(d)
  {
    forall i, j | 0 <= i < j < |d|
      ensures d[i] != d[j]
    {
      assert Keys(d)[i] != Keys(d)[j];
    }
  }

  /** Storing under a new key appends the pair. */
  lemma {:induction false} PutNew<K(!new), V>(d: seq<(K, V)>, k: K, v: V)
    requires k !in Keys(d)
    ensures Put(d, k, v) == d + [(k, v)]
  {
    if |d| > 0 {
      assert d == [d[0]] + d[1..];
      KeysCons(d[0], d[1..]);
      PutNew(d[1..], k, v);
      assert [d[0]] + (d[1..] + [(k, v)]) == d + [(k, v)];
    }
  }

  /** Storing under a key first held at position `i` replaces that
      pair in place. */
  lemma {:induction false} PutExisting<K(!new), V>(d: seq<(K, V)>, i: nat, v: V)
    requires i < |d|
    requires forall j :: 0 <= j < i ==> d[j].0 != d[i].0
    ensures Put(d, d[i].0, v) == d[i := (d[i].0, v)]
  {
    var k := d[i].0;
    assert d == [d[0]] + d[1..];
    if i == 0 {
      assert [(k, v)] + d[1..] == d[0 := (k, v)];
    } else {
      assert d[1..][i - 1] == d[i];
      PutExisting(d[1..], i - 1, v);
      PutPast(d[0], d[1..], k, v);
      ConsUpdate(d[0], d[1..], i - 1, (k, v));
    }
  }

  lemma PutPast<K(!new), V>(x: (K, V), d: seq<(K, V)>, k: K, v: V)
    requires x.0 != k
    ensures Put([x] + d, k, v) == [x] + Put(d, k, v)
  {
    assert ([x] + d)[1..] == d;
  }

  lemma ConsUpdate<T>(x: T, s: seq<T>, j: nat, y: T)
    requires j < |s|
    ensures [x] + s[j := y] == ([x] + s)[j + 1 := y]
  {
  }
}
