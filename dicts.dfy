/** Python dictionaries as the scripts use them: insertion-ordered sequences of
    key/value pairs. Assigning to an existing key keeps its position and
    replaces its value; a new key goes to the end. */
module Dicts {

  import opened Wrappers

  function Keys<K, V>(d: seq<(K, V)>): seq<K>
  {
    seq(|d|, i requires 0 <= i < |d| => d[i].0)
  }

  predicate HasKey<K(==), V>(d: seq<(K, V)>, k: K)
  {
    exists i | 0 <= i < |d| :: d[i].0 == k
  }

  lemma KeysHasKey<K, V>(d: seq<(K, V)>)
    ensures forall k :: k in Keys(d) <==> HasKey(d, k)
  {
    forall k ensures k in Keys(d) <==> HasKey(d, k) {
      if k in Keys(d) {
        var i :| 0 <= i < |Keys(d)| && Keys(d)[i] == k;
        assert d[i].0 == k;
      }
      if HasKey(d, k) {
        var i :| 0 <= i < |d| && d[i].0 == k;
        assert Keys(d)[i] == k;
      }
    }
  }

  /** No key appears twice, as in every Python dict. */
  predicate DistinctKeys<K(==), V>(d: seq<(K, V)>)
  {
    forall i, j | 0 <= i < j < |d| :: d[i].0 != d[j].0
  }

  /** `d[k]`: the value stored under the first entry with key `k`
      (`GetFirst`). */
  function Get<K(==), V>(d: seq<(K, V)>, k: K): (r: Option<V>)
    ensures r.None? <==> !HasKey(d, k)
  {
    if d == [] then None
    else if d[0].0 == k then Some(d[0].1)
    else
      assert HasKey(d, k) ==> HasKey(d[1..], k) by {
        if HasKey(d, k) {
          var i :| 0 <= i < |d| && d[i].0 == k;
          assert d[1..][i - 1].0 == k;
        }
      }
      Get(d[1..], k)
  }

  /** A successful lookup reads the first entry with key `k`: every entry
      before it has another key. */
  lemma {:induction false} GetFirst<K, V>(d: seq<(K, V)>, k: K)
    requires Get(d, k).Some?
    ensures exists i | 0 <= i < |d| :: d[i] == (k, Get(d, k).value) && forall j | 0 <= j < i :: d[j].0 != k
    decreases |d|
  {
    if d[0].0 != k {
      var v := Get(d, k).value;
      GetFirst(d[1..], k);
      var i :| 0 <= i < |d[1..]| && d[1..][i] == (k, v) && forall j | 0 <= j < i :: d[1..][j].0 != k;
      assert d[i + 1] == (k, v);
      forall j | 0 <= j < i + 1
        ensures d[j].0 != k
      {
        if j > 0 { assert d[j] == d[1..][j - 1]; }
      }
    }
  }

  /** `d[k] = v`. Afterwards `k` maps to `v` and every other key keeps its
      value; `PutKeys` says what happens to the key order. */
  function Put<K(==,!new), V>(d: seq<(K, V)>, k: K, v: V): (r: seq<(K, V)>)
    ensures Get(r, k) == Some(v)
    ensures forall k' | k' != k :: Get(r, k') == Get(d, k')
  {
    if d == [] then [(k, v)]
    else if d[0].0 == k then
      var r := [(k, v)] + d[1..];
      ConsFacts((k, v), d[1..]);
      ConsFacts(d[0], d[1..]);
      assert d == [d[0]] + d[1..];
      r
    else
      var rest := Put(d[1..], k, v);
      var r := [d[0]] + rest;
      ConsFacts(d[0], rest);
      ConsFacts(d[0], d[1..]);
      assert d == [d[0]] + d[1..];
      assert Get(rest, d[0].0) == Get(d[1..], d[0].0);
      r
  }

  /** The key order grows only when `k` was new. */
  lemma {:induction false} PutKeys<K(!new), V>(d: seq<(K, V)>, k: K, v: V)
    ensures Keys(Put(d, k, v)) == if HasKey(d, k) then Keys(d) else Keys(d) + [k]
    decreases |d|
  {
    if d != [] {
      var t := d[1..];
      assert Keys(d) == [d[0].0] + Keys(t) && HasKey(d, k) == (d[0].0 == k || HasKey(t, k)) by {
        assert d == [d[0]] + t;
        ConsFacts(d[0], t);
      }
      if d[0].0 == k {
        assert Keys(Put(d, k, v)) == [k] + Keys(t) by {
          assert Put(d, k, v) == [(k, v)] + t;
          ConsFacts((k, v), t);
        }
      } else {
        var r := Put(t, k, v);
        assert Keys(Put(d, k, v)) == [d[0].0] + Keys(r) by {
          assert Put(d, k, v) == [d[0]] + r;
          ConsFacts(d[0], r);
        }
        PutKeys(t, k, v);
        if !HasKey(t, k) {
          assert Keys(d) + [k] == [d[0].0] + (Keys(t) + [k]);
        }
      }
    }
  }

  /** Keys stay distinct. */
  lemma {:induction false} PutDistinct<K(!new), V>(d: seq<(K, V)>, k: K, v: V)
    requires DistinctKeys(d)
    ensures DistinctKeys(Put(d, k, v))
    decreases |d|
  {
    if d != [] {
      var t := d[1..];
      assert d == [d[0]] + t;
      ConsFacts(d[0], t);
      if d[0].0 == k {
        assert Put(d, k, v) == [(k, v)] + t;
        ConsFacts((k, v), t);
      } else {
        PutDistinct(t, k, v);
        assert Put(d, k, v) == [d[0]] + Put(t, k, v);
        ConsFacts(d[0], Put(t, k, v));
        assert Get(Put(t, k, v), d[0].0) == Get(t, d[0].0);
      }
    }
  }

  /** How the dictionary operations see an entry in front of a sequence. */
  lemma ConsFacts<K, V>(e: (K, V), rest: seq<(K, V)>)
    ensures forall x :: Get([e] + rest, x) == if e.0 == x then Some(e.1) else Get(rest, x)
    ensures forall x :: HasKey([e] + rest, x) <==> e.0 == x || HasKey(rest, x)
    ensures Keys([e] + rest) == [e.0] + Keys(rest)
    ensures DistinctKeys([e] + rest) <==> DistinctKeys(rest) && !HasKey(rest, e.0)
  {
    var d := [e] + rest;
    assert d[1..] == rest;
    assert d[0] == e;
    forall x ensures HasKey(d, x) <==> e.0 == x || HasKey(rest, x) {
      if HasKey(d, x) {
        var i :| 0 <= i < |d| && d[i].0 == x;
        if i > 0 { assert rest[i - 1].0 == x; }
      }
      if HasKey(rest, x) {
        var i :| 0 <= i < |rest| && rest[i].0 == x;
        assert d[i + 1].0 == x;
      }
    }
    if DistinctKeys(d) {
      forall i, j | 0 <= i < j < |rest| ensures rest[i].0 != rest[j].0 {
        assert d[i + 1] == rest[i] && d[j + 1] == rest[j];
      }
      forall i | 0 <= i < |rest| ensures rest[i].0 != e.0 {
        assert d[i + 1] == rest[i];
      }
    }
    if DistinctKeys(rest) && !HasKey(rest, e.0) {
      forall i, j | 0 <= i < j < |d| ensures d[i].0 != d[j].0 {
        if i == 0 {
          assert rest[j - 1].0 == d[j].0;
        } else {
          assert rest[i - 1] == d[i] && rest[j - 1] == d[j];
        }
      }
    }
  }

  /** A new key goes to the end. */
  lemma {:induction false} PutNew<K(!new), V>(d: seq<(K, V)>, k: K, v: V)
    requires !HasKey(d, k)
    ensures Put(d, k, v) == d + [(k, v)]
    decreases |d|
  {
    if d != [] {
      assert d == [d[0]] + d[1..];
      ConsFacts(d[0], d[1..]);
      PutNew(d[1..], k, v);
    }
  }

  /** In a dict with distinct keys, looking up the key of entry `i` yields
      entry `i`'s value. */
  lemma {:induction false} GetDistinct<K, V>(d: seq<(K, V)>, i: nat)
    requires DistinctKeys(d) && i < |d|
    ensures Get(d, d[i].0) == Some(d[i].1)
    decreases |d|
  {
    if i > 0 {
      assert d == [d[0]] + d[1..];
      ConsFacts(d[0], d[1..]);
      assert d[1..][i - 1] == d[i];
      GetDistinct(d[1..], i - 1);
    }
  }

}
