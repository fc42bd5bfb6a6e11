/**
 * A counting dictionary that remembers insertion order: the model of a
 * Python `defaultdict(int)` whose keys are iterated in the order they were
 * first added. Reading a missing key yields 0.
 */
module Tally {

  datatype Entry<K> = Entry(key: K, count: int)

  /** No key appears twice. */
  ghost predicate Wf<K>(t: seq<Entry<K>>) {
    forall i, j :: 0 <= i < j < |t| ==> t[i].key != t[j].key
  }

  /** `k in d`. */
  predicate Has<K(==)>(t: seq<Entry<K>>, k: K) {
    exists i :: 0 <= i < |t| && t[i].key == k
  }

  /** `d[k]` on a defaultdict(int) that is only read: 0 when `k` is absent. */
  function Get<K(==)>(t: seq<Entry<K>>, k: K): (n: int)
    ensures !Has(t, k) ==> n == 0
  {
    if |t| == 0 then 0
    else if t[0].key == k then t[0].count
    else
      assert Has(t[1..], k) ==> Has(t, k) by {
        if Has(t[1..], k) {
          var i :| 0 <= i < |t[1..]| && t[1..][i].key == k;
          assert t[i + 1].key == k;
        }
      }
      Get(t[1..], k)
  }

  /** `sum(d.values())`. */
  function Total<K>(t: seq<Entry<K>>): int {
    if |t| == 0 then 0 else t[0].count + Total(t[1..])
  }

  /** A key is in a tally with a head entry iff it is the head's key or is in the rest. */
  lemma HasCons<K>(e: Entry<K>, t: seq<Entry<K>>, x: K)
    ensures Has([e] + t, x) <==> x == e.key || Has(t, x)
  {
    var r := [e] + t;
    if Has(r, x) && x != e.key {
      var i :| 0 <= i < |r| && r[i].key == x;
      assert t[i - 1].key == x;
    }
    if Has(t, x) {
      var i :| 0 <= i < |t| && t[i].key == x;
      assert r[i + 1].key == x;
    }
    if x == e.key {
      assert r[0].key == x;
    }
  }

  /** A tally with a head entry repeats no key iff its rest repeats none and lacks the head's key. */
  lemma WfCons<K>(e: Entry<K>, t: seq<Entry<K>>)
    ensures Wf([e] + t) <==> Wf(t) && !Has(t, e.key)
  {
    var r := [e] + t;
    if Wf(r) {
      forall i, j | 0 <= i < j < |t| ensures t[i].key != t[j].key {
        assert t[i] == r[i + 1] && t[j] == r[j + 1];
      }
      forall i | 0 <= i < |t| ensures t[i].key != e.key {
        assert r[0] == e && t[i] == r[i + 1];
        assert r[0].key != r[i + 1].key;
      }
    }
    if Wf(t) && !Has(t, e.key) {
      forall i, j | 0 <= i < j < |r| ensures r[i].key != r[j].key {
        if i == 0 {
          assert r[j].key == t[j - 1].key;
        } else {
          assert r[i] == t[i - 1] && r[j] == t[j - 1];
        }
      }
    }
  }

  /**
   * `r` is `t` after `d[k] += v`: `k` is present in `r` and its count grew by
   * `v`, every other key keeps its count, an existing key keeps its place and
   * a new key is appended with count `v`.
   */
  ghost predicate Bumped<K(!new)>(t: seq<Entry<K>>, k: K, v: int, r: seq<Entry<K>>) {
    && (Wf(t) ==> Wf(r))
    && (forall x :: Has(r, x) <==> Has(t, x) || x == k)
    && Get(r, k) == Get(t, k) + v
    && (forall x :: x != k ==> Get(r, x) == Get(t, x))
    && Total(r) == Total(t) + v
    && (Has(t, k) ==> |r| == |t| && forall i :: 0 <= i < |t| ==> r[i].key == t[i].key)
    && (!Has(t, k) ==> r == t + [Entry(k, v)])
  }

  /** Bumping an empty tally yields the single new entry. */
  lemma BumpEmpty<K(!new)>(k: K, v: int)
    ensures Bumped([], k, v, [Entry(k, v)])
  {
    var r := [Entry(k, v)];
    forall x ensures Has(r, x) <==> x == k {
      HasCons(r[0], [], x);
      assert r == [r[0]] + [];
    }
  }

  /** Bumping the key of the first entry raises that entry in place. */
  lemma BumpFound<K(!new)>(t: seq<Entry<K>>, k: K, v: int)
    requires |t| > 0 && t[0].key == k
    ensures Bumped(t, k, v, [Entry(k, t[0].count + v)] + t[1..])
  {
    var r := [Entry(k, t[0].count + v)] + t[1..];
    assert t == [t[0]] + t[1..];
    forall x ensures Has(r, x) <==> Has(t, x) {
      HasCons(t[0], t[1..], x);
      HasCons(r[0], t[1..], x);
    }
    WfCons(t[0], t[1..]);
    WfCons(r[0], t[1..]);
  }

  /** Bumping a key other than the first entry's bumps the rest. */
  lemma BumpPassed<K(!new)>(t: seq<Entry<K>>, k: K, v: int, rest: seq<Entry<K>>)
    requires |t| > 0 && t[0].key != k
    requires Bumped(t[1..], k, v, rest)
    ensures Bumped(t, k, v, [t[0]] + rest)
  {
    var r := [t[0]] + rest;
    assert t == [t[0]] + t[1..];
    assert r[0] == t[0] && r[1..] == rest;
    forall x ensures Has(r, x) <==> Has(t, x) || x == k {
      HasCons(t[0], t[1..], x);
      HasCons(t[0], rest, x);
    }
    WfCons(t[0], t[1..]);
    WfCons(t[0], rest);
    assert [t[0]] + (t[1..] + [Entry(k, v)]) == t + [Entry(k, v)];
    assert Wf(t) ==> Wf(r);
    assert Get(r, k) == Get(t, k) + v;
    assert forall x :: x != k ==> Get(r, x) == Get(t, x);
    assert Total(r) == Total(t) + v;
    assert Has(t, k) ==> |r| == |t| && forall i :: 0 <= i < |t| ==> r[i].key == t[i].key;
    assert !Has(t, k) ==> r == t + [Entry(k, v)];
  }

  /** `d[k] += v`. */
  function Bump<K(==,!new)>(t: seq<Entry<K>>, k: K, v: int): (r: seq<Entry<K>>)
    ensures Bumped(t, k, v, r)
  {
    if |t| == 0 then
      BumpEmpty(k, v);
      [Entry(k, v)]
    else if t[0].key == k then
      BumpFound(t, k, v);
      [Entry(k, t[0].count + v)] + t[1..]
    else
      var rest := Bump(t[1..], k, v);
      BumpPassed(t, k, v, rest);
      [t[0]] + rest
  }

  /** In a tally without repeated keys, reading an entry's key yields that entry's count. */
  lemma {:induction false} GetEntry<K>(t: seq<Entry<K>>, j: nat)
    requires Wf(t) && j < |t|
    ensures Get(t, t[j].key) == t[j].count
    decreases j
  {
    if j > 0 {
      assert t[0].key != t[j].key;
      assert Wf(t[1..]);
      GetEntry(t[1..], j - 1);
    }
  }
}
