/** Sums over a finite set, independent of the order in which it is walked. */
module Sums {

  ghost function Sum<K>(keys: set<K>, f: K -> nat): nat {
    if keys == {} then 0
    else
      var k :| k in keys;
      f(k) + Sum(keys - {k}, f)
  }

  /** Any element may be taken out first. */
  lemma {:induction false} SumPick<K>(keys: set<K>, k: K, f: K -> nat)
    requires k in keys
    ensures Sum(keys, f) == f(k) + Sum(keys - {k}, f)
    decreases |keys|
  {
    var j :| j in keys && Sum(keys, f) == f(j) + Sum(keys - {j}, f);
    if j != k {
      SumPick(keys - {j}, k, f);
      SumPick(keys - {k}, j, f);
      assert keys - {j} - {k} == keys - {k} - {j};
    }
  }

  lemma SumAddOne<K>(keys: set<K>, k: K, f: K -> nat)
    requires k !in keys
    ensures Sum(keys + {k}, f) == f(k) + Sum(keys, f)
  {
    SumPick(keys + {k}, k, f);
    assert keys + {k} - {k} == keys;
  }

  lemma {:induction false} SumSame<K>(keys: set<K>, f: K -> nat, g: K -> nat)
    requires forall k :: k in keys ==> f(k) == g(k)
    ensures Sum(keys, f) == Sum(keys, g)
  {
    if keys == {} {
    } else {
      var k :| k in keys;
      SumPick(keys, k, f);
      SumPick(keys, k, g);
      SumSame(keys - {k}, f, g);
    }
  }

  lemma {:induction false} SumOfThree<K>(keys: set<K>, total: K -> nat, f: K -> nat, g: K -> nat, h: K -> nat)
    requires forall k :: k in keys ==> total(k) == f(k) + g(k) + h(k)
    ensures Sum(keys, total) == Sum(keys, f) + Sum(keys, g) + Sum(keys, h)
  {
    if keys == {} {
    } else {
      var k :| k in keys;
      SumPick(keys, k, total);
      SumPick(keys, k, f);
      SumPick(keys, k, g);
      SumPick(keys, k, h);
      SumOfThree(keys - {k}, total, f, g, h);
    }
  }

  /** Keys that contribute nothing can be left out. */
  lemma {:induction false} SumDropZeros<K>(keys: set<K>, kept: set<K>, f: K -> nat)
    requires kept <= keys
    requires forall k :: k in keys && k !in kept ==> f(k) == 0
    ensures Sum(keys, f) == Sum(kept, f)
    decreases |keys|
  {
    if keys != kept {
      var k :| k in keys && k !in kept;
      SumPick(keys, k, f);
      SumDropZeros(keys - {k}, kept, f);
    }
  }

  lemma {:induction false} SumZero<K>(keys: set<K>, f: K -> nat)
    ensures Sum(keys, f) == 0 <==> forall k :: k in keys ==> f(k) == 0
  {
    if keys == {} {
    } else {
      var k :| k in keys && Sum(keys, f) == f(k) + Sum(keys - {k}, f);
      SumZero(keys - {k}, f);
      assert keys == keys - {k} + {k};
    }
  }
}
