/**
 * Python dictionaries keep their keys in insertion order.  An ordered map is a
 * sequence of (key, value) pairs; `Put` is `d[k] = v`: it replaces the value of a key
 * that is already present, in place, and appends a new key at the end.
 */
module OrderedMaps {
  import opened Wrappers

  /** The keys, in insertion order. */
  function Keys<K, V>(m: seq<(K, V)>): seq<K>
  {
    seq(|m|, i requires 0 <= i < |m| => m[i].0)
  }

  /** `d.get(k)`: the binding of `k`, the last one should the sequence hold several. */
  function Get<K(==), V>(m: seq<(K, V)>, k: K): (r: Option<V>)
    ensures r.Some? <==> k in Keys(m)
    decreases |m|
  {
    if m == [] then None
    else
      assert Keys(m) == Keys(m[..|m| - 1]) + [m[|m| - 1].0];
      if m[|m| - 1].0 == k then Some(m[|m| - 1].1)
      else Get(m[..|m| - 1], k)
  }

  /** `d[k] = v`. */
  function Put<K(==), V>(m: seq<(K, V)>, k: K, v: V): seq<(K, V)>
  {
    if k in Keys(m) then
      seq(|m|, i requires 0 <= i < |m| => if m[i].0 == k then (k, v) else m[i])
    else
      m + [(k, v)]
  }

  /** No key occurs twice: every map a Python program can build. */
  predicate UniqueKeys<K(==), V>(m: seq<(K, V)>)
  {
    forall i, j :: 0 <= i < j < |m| ==> m[i].0 != m[j].0
  }

  lemma {:induction false} GetReplaced<K, V>(m: seq<(K, V)>, k: K, v: V, k': K)
    requires k in Keys(m)
    ensures Get(seq(|m|, i requires 0 <= i < |m| => if m[i].0 == k then (k, v) else m[i]), k')
            == if k' == k then Some(v) else Get(m, k')
    decreases |m|
  {
    var r := seq(|m|, i requires 0 <= i < |m| => if m[i].0 == k then (k, v) else m[i]);
    var n := |m| - 1;
    var m' := m[..n];
    var r' := seq(|m'|, i requires 0 <= i < |m'| => if m'[i].0 == k then (k, v) else m'[i]);
    assert r[..n] == r';
    assert Keys(m) == Keys(m') + [m[n].0];
    if k in Keys(m') {
      GetReplaced(m', k, v, k');
    } else if m[n].0 == k {
      forall i | 0 <= i < |m'| ensures r'[i] == m'[i] {
        assert Keys(m')[i] == m'[i].0;
      }
      assert r' == m';
    } else {
      assert false;
    }
  }

  lemma GetAppend<K, V>(m: seq<(K, V)>, k: K, v: V, k': K)
    ensures Get(m + [(k, v)], k') == if k' == k then Some(v) else Get(m, k')
  {
    assert (m + [(k, v)])[..|m|] == m;
  }

  /** After `d[k] = v`, `k` is bound to `v` and every other key keeps its value. */
  lemma PutGet<K, V>(m: seq<(K, V)>, k: K, v: V, k': K)
    ensures Get(Put(m, k, v), k') == if k' == k then Some(v) else Get(m, k')
  {
    if k in Keys(m) {
      GetReplaced(m, k, v, k');
    } else {
      GetAppend(m, k, v, k');
    }
  }

  /** `d[k] = v` keeps the insertion order: an existing key keeps its place, a new one goes last. */
  lemma PutKeys<K, V>(m: seq<(K, V)>, k: K, v: V)
    ensures Keys(Put(m, k, v)) == if k in Keys(m) then Keys(m) else Keys(m) + [k]
  {
  }

  lemma PutUnique<K, V>(m: seq<(K, V)>, k: K, v: V)
    requires UniqueKeys(m)
    ensures UniqueKeys(Put(m, k, v))
  {
    if k !in Keys(m) {
      var r := Put(m, k, v);
      forall i, j | 0 <= i < j < |r| ensures r[i].0 != r[j].0 {
        if j == |m| {
          assert r[i].0 == Keys(m)[i];
        }
      }
    }
  }

  /** The value `Get` returns is one of the bindings. */
  lemma {:induction false} GetFound<K, V>(m: seq<(K, V)>, k: K)
    requires k in Keys(m)
    ensures exists i :: 0 <= i < |m| && m[i] == (k, Get(m, k).value)
    decreases |m|
  {
    var n := |m| - 1;
    assert Keys(m) == Keys(m[..n]) + [m[n].0];
    if m[n].0 != k {
      GetFound(m[..n], k);
      var i :| 0 <= i < n && m[..n][i] == (k, Get(m[..n], k).value);
      assert m[i] == m[..n][i];
    }
  }

  /** In a map without repeated keys, every binding is the one `Get` finds. */
  lemma {:induction false} GetUnique<K, V>(m: seq<(K, V)>, i: nat)
    requires UniqueKeys(m) && i < |m|
    ensures Get(m, m[i].0) == Some(m[i].1)
    decreases |m|
  {
    var n := |m| - 1;
    if i < n {
      assert m[n].0 != m[i].0;
      assert m[..n][i] == m[i];
      GetUnique(m[..n], i);
    }
  }

  /** `d.update(e)`: the pairs of `e` put into `d` one by one, in order. */
  function Update<K(==), V>(d: seq<(K, V)>, e: seq<(K, V)>): seq<(K, V)>
    decreases |e|
  {
    if e == [] then d else Put(Update(d, e[..|e| - 1]), e[|e| - 1].0, e[|e| - 1].1)
  }

  /** After `d.update(e)` a key of `e` reads as in `e`, any other key as in `d`. */
  lemma {:induction false} UpdateGet<K, V>(d: seq<(K, V)>, e: seq<(K, V)>, k: K)
    ensures Get(Update(d, e), k) == if k in Keys(e) then Get(e, k) else Get(d, k)
    decreases |e|
  {
    if e != [] {
      var n := |e| - 1;
      var u := Update(d, e[..n]);
      PutGet(u, e[n].0, e[n].1, k);
      assert Keys(e) == Keys(e[..n]) + [e[n].0];
      if e[n].0 != k {
        UpdateGet(d, e[..n], k);
      }
    }
  }

  /** `d.update(e)` has the keys of both. */
  lemma UpdateKeys<K, V>(d: seq<(K, V)>, e: seq<(K, V)>)
    ensures forall k :: k in Keys(Update(d, e)) <==> k in Keys(d) || k in Keys(e)
  {
    forall k ensures k in Keys(Update(d, e)) <==> k in Keys(d) || k in Keys(e) {
      UpdateGet(d, e, k);
    }
  }

  /** `d = {}; for k, v in pairs: d[k] = v`. */
  function FromPairs<K(==), V>(ps: seq<(K, V)>): (m: seq<(K, V)>)
    ensures UniqueKeys(m)
    decreases |ps|
  {
    if ps == [] then []
    else
      var init := FromPairs(ps[..|ps| - 1]);
      PutUnique(init, ps[|ps| - 1].0, ps[|ps| - 1].1);
      Put(init, ps[|ps| - 1].0, ps[|ps| - 1].1)
  }

  /** Filling a dict pair by pair, the last pair of a key wins: exactly what `Get` reads from the pairs. */
  lemma {:induction false} FromPairsGet<K, V>(ps: seq<(K, V)>, k: K)
    ensures Get(FromPairs(ps), k) == Get(ps, k)
    decreases |ps|
  {
    if ps != [] {
      var n := |ps| - 1;
      FromPairsGet(ps[..n], k);
      PutGet(FromPairs(ps[..n]), ps[n].0, ps[n].1, k);
    }
  }

  /** Pairs without repeated keys go into the dict unchanged and in order. */
  lemma {:induction false} FromPairsOfUnique<K, V>(ps: seq<(K, V)>)
    requires UniqueKeys(ps)
    ensures FromPairs(ps) == ps
    decreases |ps|
  {
    if ps != [] {
      var n := |ps| - 1;
      assert UniqueKeys(ps[..n]);
      FromPairsOfUnique(ps[..n]);
      assert ps[n].0 !in Keys(ps[..n]) by {
        forall i | 0 <= i < n ensures Keys(ps[..n])[i] != ps[n].0 {
          assert Keys(ps[..n])[i] == ps[i].0;
        }
      }
      assert ps[..n] + [ps[n]] == ps;
    }
  }
}
