/**
 * Swift dictionaries with string keys (`[String: Any]`, `HTTPHeaders`), as
 * association lists whose keys are pairwise distinct. The list order stands
 * for the dictionary's iteration order, which Swift leaves unspecified: no
 * property of the model depends on the order of two different keys.
 */
module Dicts {
  import opened Basics

  predicate DistinctKeys<V>(d: seq<(string, V)>) {
    forall i, j :: 0 <= i < j < |d| ==> d[i].0 != d[j].0
  }

  type Dict<V> = d: seq<(string, V)> | DistinctKeys(d) witness []

  /** The keys present in `d`. */
  function Keys<V>(d: seq<(string, V)>): set<string>
  {
    if |d| == 0 then {} else {d[0].0} + Keys(d[1..])
  }

  lemma KeysIndex<V>(d: seq<(string, V)>, k: string)
    ensures k in Keys(d) <==> exists i :: 0 <= i < |d| && d[i].0 == k
  {
    if |d| > 0 {
      KeysIndex(d[1..], k);
      if k in Keys(d[1..]) {
        var i :| 0 <= i < |d[1..]| && d[1..][i].0 == k;
        assert d[i + 1].0 == k;
      }
      if exists i :: 0 <= i < |d| && d[i].0 == k {
        var i :| 0 <= i < |d| && d[i].0 == k;
        if i > 0 {
          assert d[1..][i - 1].0 == k;
        }
      }
    }
  }

  lemma KeysAppend<V>(a: seq<(string, V)>, b: seq<(string, V)>)
    ensures Keys(a + b) == Keys(a) + Keys(b)
  {
    if |a| == 0 {
      assert a + b == b;
    } else {
      assert (a + b)[1..] == a[1..] + b;
      KeysAppend(a[1..], b);
    }
  }

  /** Subscript read `d[k]`. */
  function Lookup<V>(d: seq<(string, V)>, k: string): (r: Option<V>)
    ensures r.None? <==> k !in Keys(d)
    ensures r.Some? ==> (k, r.value) in d
  {
    if |d| == 0 then None
    else if d[0].0 == k then Some(d[0].1)
    else Lookup(d[1..], k)
  }

  /** In a dictionary, the entry of key `d[i].0` is the one at index `i`. */
  lemma LookupAt<V>(d: Dict<V>, i: nat)
    requires i < |d|
    ensures Lookup(d, d[i].0) == Some(d[i].1)
  {
    if i > 0 {
      var t: Dict<V> := d[1..];
      LookupAt(t, i - 1);
    }
  }

  /** Subscript write `d[k] = v`: replaces the value of an existing key in place, or appends a new entry. */
  function Set<V>(d: Dict<V>, k: string, v: V): (r: Dict<V>)
    ensures Keys(r) == Keys(d) + {k}
    ensures Lookup(r, k) == Some(v)
    ensures forall k' :: k' != k ==> Lookup(r, k') == Lookup(d, k')
  {
    if |d| == 0 then [(k, v)]
    else if d[0].0 == k then
      var t: Dict<V> := d[1..];
      assert k !in Keys(t) by {
        KeysIndex(t, k);
      }
      [(k, v)] + t
    else
      var t: Dict<V> := d[1..];
      var rest := Set(t, k, v);
      assert d[0].0 !in Keys(rest) by {
        KeysIndex(t, d[0].0);
      }
      KeysIndex(rest, d[0].0);
      [d[0]] + rest
  }

  /** The entries of `other` whose key is not in `ks`, in their order. */
  function Without<V>(other: Dict<V>, ks: set<string>): (r: Dict<V>)
    ensures Keys(r) == Keys(other) - ks
    ensures forall k :: k !in ks ==> Lookup(r, k) == Lookup(other, k)
  {
    if |other| == 0 then []
    else
      var first, t: Dict<V> := other[0], other[1..];
      var rest := Without(t, ks);
      assert Keys(other) == {first.0} + Keys(t);
      if first.0 in ks then
        assert forall k :: k !in ks ==> Lookup(other, k) == Lookup(t, k);
        rest
      else
        assert first.0 !in Keys(t) by {
          KeysIndex(t, first.0);
        }
        KeysIndex(rest, first.0);
        var r := [first] + rest;
        assert r[1..] == rest;
        assert Keys(r) == {first.0} + Keys(rest);
        r
  }

  /**
   * `d.merging(other) { mine, _ in mine }`: every key of either dictionary,
   * and on a key present in both the value of `d` wins.
   */
  function Merging<V>(d: Dict<V>, other: Dict<V>): (r: Dict<V>)
    ensures Keys(r) == Keys(d) + Keys(other)
    ensures forall k :: k in Keys(d) ==> Lookup(r, k) == Lookup(d, k)
    ensures forall k :: k !in Keys(d) ==> Lookup(r, k) == Lookup(other, k)
  {
    var extra := Without(other, Keys(d));
    var r := d + extra;
    assert DistinctKeys(r) by {
      forall i, j | 0 <= i < j < |r| ensures r[i].0 != r[j].0 {
        if j >= |d| && i < |d| {
          KeysIndex(extra, r[j].0);
          assert r[j] == extra[j - |d|];
          KeysIndex(d, r[i].0);
        }
      }
    }
    LookupAppendAll(d, extra);
    KeysAppend(d, extra);
    r
  }

  lemma LookupAppendAll<V>(a: seq<(string, V)>, b: seq<(string, V)>)
    ensures forall k :: Lookup(a + b, k) == if k in Keys(a) then Lookup(a, k) else Lookup(b, k)
  {
    forall k ensures Lookup(a + b, k) == if k in Keys(a) then Lookup(a, k) else Lookup(b, k) {
      LookupAppend(a, b, k);
    }
  }

  lemma LookupAppend<V>(a: seq<(string, V)>, b: seq<(string, V)>, k: string)
    ensures Lookup(a + b, k) == if k in Keys(a) then Lookup(a, k) else Lookup(b, k)
  {
    if |a| > 0 {
      assert (a + b)[1..] == a[1..] + b;
      LookupAppend(a[1..], b, k);
    } else {
      assert a + b == b;
    }
  }
}
