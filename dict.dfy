/** Python's dict as the result assembler uses it: insertion-ordered keys,
    and assigning to a key that is already present replaces its value where
    it stands. */
module Dict {
  import opened Wrappers

  type Dict<V> = seq<(string, V)>

  function Keys<V>(d: Dict<V>): (ks: seq<string>)
    ensures |ks| == |d| && forall i :: 0 <= i < |d| ==> ks[i] == d[i].0
  {
    seq(|d|, i requires 0 <= i < |d| => d[i].0)
  }

  function Get<V>(d: Dict<V>, k: string): (r: Option<V>)
    ensures r.Some? <==> k in Keys(d)
  {
    if d == [] then None
    else if d[0].0 == k then Some(d[0].1)
    else (assert Keys(d[1..]) == Keys(d)[1..]; Get(d[1..], k))
  }

  /** `d[k] = v`. */
  function Put<V>(d: Dict<V>, k: string, v: V): (r: Dict<V>)
    ensures Get(r, k) == Some(v)
    ensures forall k' :: k' != k ==> Get(r, k') == Get(d, k')
    ensures Keys(r) == if k in Keys(d) then Keys(d) else Keys(d) + [k]
  {
    if d == [] then [(k, v)]
    else if d[0].0 == k then
      var r := [(k, v)] + d[1..];
      PutHead(d, k, v, r);
      r
    else
      var tail := Put(d[1..], k, v);
      var r := [d[0]] + tail;
      PutRest(d, k, v, tail, r);
      r
  }

  /** Looking up in a non-empty dict: its first entry, or the rest. */
  lemma GetCons<V>(d: Dict<V>)
    requires d != []
    ensures forall k :: Get(d, k) == if d[0].0 == k then Some(d[0].1) else Get(d[1..], k)
  {
  }

  /** The keys of a non-empty dict: its first key, then the rest. */
  lemma KeysCons<V>(d: Dict<V>)
    requires d != []
    ensures Keys(d) == [d[0].0] + Keys(d[1..])
  {
  }

  /** `d[k] = v` where `k` is the first key: the value is replaced in place. */
  lemma PutHead<V>(d: Dict<V>, k: string, v: V, r: Dict<V>)
    requires d != [] && d[0].0 == k && r == [(k, v)] + d[1..]
    ensures Get(r, k) == Some(v)
    ensures forall k' :: k' != k ==> Get(r, k') == Get(d, k')
    ensures Keys(r) == Keys(d) && k in Keys(d)
  {
    assert r[1..] == d[1..];
    GetCons(r);
    GetCons(d);
    KeysCons(r);
    KeysCons(d);
  }

  /** `d[k] = v` where `k` is not the first key: the first entry is kept
      and the rest is updated. */
  lemma PutRest<V>(d: Dict<V>, k: string, v: V, tail: Dict<V>, r: Dict<V>)
    requires d != [] && d[0].0 != k && r == [d[0]] + tail
    requires Get(tail, k) == Some(v)
    requires forall k' :: k' != k ==> Get(tail, k') == Get(d[1..], k')
    requires Keys(tail) == if k in Keys(d[1..]) then Keys(d[1..]) else Keys(d[1..]) + [k]
    ensures Get(r, k) == Some(v)
    ensures forall k' :: k' != k ==> Get(r, k') == Get(d, k')
    ensures Keys(r) == if k in Keys(d) then Keys(d) else Keys(d) + [k]
  {
    PutRestGet(d, k, v, tail, r);
    KeysCons(r);
    KeysCons(d);
    assert r[1..] == tail;
    PutRestKeys(Keys(d), Keys(d[1..]), Keys(tail), Keys(r), d[0].0, k);
  }

  lemma PutRestGet<V>(d: Dict<V>, k: string, v: V, tail: Dict<V>, r: Dict<V>)
    requires d != [] && d[0].0 != k && r == [d[0]] + tail
    requires Get(tail, k) == Some(v)
    requires forall k' :: k' != k ==> Get(tail, k') == Get(d[1..], k')
    ensures Get(r, k) == Some(v)
    ensures forall k' :: k' != k ==> Get(r, k') == Get(d, k')
  {
    assert r[1..] == tail;
    GetCons(r);
    GetCons(d);
  }

  lemma PutRestKeys(kd: seq<string>, kd1: seq<string>, kt: seq<string>, kr: seq<string>, h: string, k: string)
    requires h != k && kd == [h] + kd1 && kr == [h] + kt
    requires kt == if k in kd1 then kd1 else kd1 + [k]
    ensures kr == if k in kd then kd else kd + [k]
  {
    assert k in kd <==> k in kd1;
    assert [h] + (kd1 + [k]) == kd + [k];
  }

  /** Storing twice under one key is storing the second value. */
  lemma {:induction false} PutTwice<V>(d: Dict<V>, k: string, v1: V, v2: V)
    ensures Put(Put(d, k, v1), k, v2) == Put(d, k, v2)
  {
    if d != [] && d[0].0 != k {
      PutTwice(d[1..], k, v1, v2);
      assert Put(d, k, v1)[1..] == Put(d[1..], k, v1);
    }
  }
}
