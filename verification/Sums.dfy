// Mappings from keys to amounts, with zero as the default, and their totals.
module Sums {
  function Get<K(==)>(m: map<K, nat>, k: K): nat {
    if k in m then m[k] else 0
  }

  ghost function SumOver<K>(m: map<K, nat>, keys: set<K>): nat {
    if keys == {} then 0
    else
      var k :| k in keys;
      Get(m, k) + SumOver(m, keys - {k})
  }

  lemma {:induction false} SumRemove<K>(m: map<K, nat>, keys: set<K>, k: K)
    requires k in keys
    ensures SumOver(m, keys) == Get(m, k) + SumOver(m, keys - {k})
  {
    var x :| x in keys && SumOver(m, keys) == Get(m, x) + SumOver(m, keys - {x});
    if x != k {
      SumRemove(m, keys - {x}, k);
      SumRemove(m, keys - {k}, x);
      assert keys - {x} - {k} == keys - {k} - {x};
    }
  }

  lemma {:induction false} SumAgree<K>(m: map<K, nat>, n: map<K, nat>, keys: set<K>)
    requires forall k :: k in keys ==> Get(m, k) == Get(n, k)
    ensures SumOver(m, keys) == SumOver(n, keys)
  {
    if keys != {} {
      var x :| x in keys;
      SumRemove(m, keys, x);
      SumRemove(n, keys, x);
      SumAgree(m, n, keys - {x});
    }
  }

  // The total over the keys whose second part is t: one token's share of a two-level mapping

  ghost function KeysFor<A, T>(m: map<(A, T), nat>, t: T): set<(A, T)> {
    set k | k in m && k.1 == t
  }

  ghost function TotalFor<A, T>(m: map<(A, T), nat>, t: T): nat {
    SumOver(m, KeysFor(m, t))
  }

  ghost function Total<K>(m: map<K, nat>): nat {
    SumOver(m, m.Keys)
  }

  lemma SumSet<K>(m: map<K, nat>, keys: set<K>, k: K, v: nat)
    ensures SumOver(m[k := v], keys + {k}) + Get(m, k) >= SumOver(m, keys - {k}) + v
    ensures SumOver(m[k := v], keys + {k}) == SumOver(m, keys - {k}) + v
  {
    SumRemove(m[k := v], keys + {k}, k);
    assert keys + {k} - {k} == keys - {k};
    SumAgree(m, m[k := v], keys - {k});
  }

  // Writing one entry moves its token's total by the difference and no other total.
  lemma TotalForSet<A, T>(m: map<(A, T), nat>, k: (A, T), v: nat, t: T)
    ensures t == k.1 ==> TotalFor(m[k := v], t) + Get(m, k) == TotalFor(m, t) + v
    ensures t != k.1 ==> TotalFor(m[k := v], t) == TotalFor(m, t)
  {
    var keys := KeysFor(m, t);
    if t == k.1 {
      assert KeysFor(m[k := v], t) == keys + {k};
      SumSet(m, keys, k, v);
      if k in m {
        SumRemove(m, keys, k);
      } else {
        assert keys - {k} == keys;
      }
    } else {
      assert KeysFor(m[k := v], t) == keys;
      SumAgree(m, m[k := v], keys);
    }
  }

  lemma TotalSet<K>(m: map<K, nat>, k: K, v: nat)
    ensures Total(m[k := v]) + Get(m, k) == Total(m) + v
  {
    assert m[k := v].Keys == m.Keys + {k};
    SumSet(m, m.Keys, k, v);
    if k in m {
      SumRemove(m, m.Keys, k);
    } else {
      assert m.Keys - {k} == m.Keys;
    }
  }

  lemma EntryAtMostTotal<K>(m: map<K, nat>, k: K)
    ensures Get(m, k) <= Total(m)
  {
    if k in m { SumRemove(m, m.Keys, k); }
  }

  lemma EntryAtMostTotalFor<A, T>(m: map<(A, T), nat>, k: (A, T))
    ensures Get(m, k) <= TotalFor(m, k.1)
  {
    if k in m { SumRemove(m, KeysFor(m, k.1), k); }
  }
}
