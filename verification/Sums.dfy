/** Sums of a quantity over a finite set of keys. */
module Sums {
  ghost function Sum<K>(keys: set<K>, f: K -> int): int {
    if keys == {} then 0 else var k :| k in keys; f(k) + Sum(keys - {k}, f)
  }

  /** Any key can be taken out first. */
  lemma {:induction false} SumRemove<K>(keys: set<K>, f: K -> int, k: K)
    requires k in keys
    ensures Sum(keys, f) == f(k) + Sum(keys - {k}, f)
    decreases |keys|
  {
    var j :| j in keys && Sum(keys, f) == f(j) + Sum(keys - {j}, f);
    if j != k {
      SumRemove(keys - {j}, f, k);
      SumRemove(keys - {k}, f, j);
      assert keys - {j} - {k} == keys - {k} - {j};
    }
  }

  lemma {:induction false} SumSame<K>(keys: set<K>, f: K -> int, g: K -> int)
    requires forall k :: k in keys ==> f(k) == g(k)
    ensures Sum(keys, f) == Sum(keys, g)
    decreases |keys|
  {
    if keys != {} {
      var k :| k in keys;
      SumRemove(keys, f, k);
      SumRemove(keys, g, k);
      SumSame(keys - {k}, f, g);
    }
  }

  /** Changing the quantity at one key, new or not, changes the sum by exactly that much. */
  lemma SumUpdate<K>(keys: set<K>, f: K -> int, g: K -> int, k: K)
    requires forall x :: x in keys && x != k ==> f(x) == g(x)
    requires k !in keys ==> f(k) == 0
    ensures Sum(keys + {k}, g) == Sum(keys, f) - f(k) + g(k)
  {
    SumRemove(keys + {k}, g, k);
    assert keys + {k} - {k} == keys - {k};
    SumSame(keys - {k}, f, g);
    if k in keys {
      SumRemove(keys, f, k);
    } else {
      assert keys - {k} == keys;
    }
  }

  /** Keys that carry nothing do not matter. */
  lemma {:induction false} SumExtend<K>(keys: set<K>, more: set<K>, f: K -> int)
    requires keys <= more
    requires forall k :: k in more - keys ==> f(k) == 0
    ensures Sum(more, f) == Sum(keys, f)
    decreases |more - keys|
  {
    if more - keys == {} {
      assert more == keys;
    } else {
      var k :| k in more - keys;
      SumRemove(more, f, k);
      assert more - {k} - keys == (more - keys) - {k};
      SumExtend(keys, more - {k}, f);
    }
  }
}
