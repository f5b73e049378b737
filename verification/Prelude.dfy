// Stock types and finite sums shared by every module.
module Prelude {

  datatype Option<+T> = None | Some(value: T)

  // The sum of `f` over a finite set.
  ghost function SumBy<K(!new)>(keys: set<K>, f: K -> int): int {
    if keys == {} then 0
    else
      var k :| k in keys;
      f(k) + SumBy(keys - {k}, f)
  }

  // Any element may be taken out first.
  lemma {:induction false} SumPick<K(!new)>(keys: set<K>, f: K -> int, k: K)
    requires k in keys
    ensures SumBy(keys, f) == f(k) + SumBy(keys - {k}, f)
    decreases |keys|
  {
    var j :| j in keys && SumBy(keys, f) == f(j) + SumBy(keys - {j}, f);
    if j != k {
      SumPick(keys - {j}, f, k);
      SumPick(keys - {k}, f, j);
      assert keys - {j} - {k} == keys - {k} - {j};
    }
  }

  lemma SumAdd<K(!new)>(keys: set<K>, f: K -> int, k: K)
    requires k !in keys
    ensures SumBy(keys + {k}, f) == SumBy(keys, f) + f(k)
  {
    SumPick(keys + {k}, f, k);
    assert keys + {k} - {k} == keys;
  }

  lemma {:induction false} SumSame<K(!new)>(keys: set<K>, f: K -> int, g: K -> int)
    requires forall k :: k in keys ==> f(k) == g(k)
    ensures SumBy(keys, f) == SumBy(keys, g)
    decreases |keys|
  {
    if keys != {} {
      var k :| k in keys;
      SumPick(keys, f, k);
      SumPick(keys, g, k);
      SumSame(keys - {k}, f, g);
    }
  }

  lemma {:induction false} SumUnion<K(!new)>(a: set<K>, b: set<K>, f: K -> int)
    requires a !! b
    ensures SumBy(a + b, f) == SumBy(a, f) + SumBy(b, f)
    decreases |b|
  {
    if b == {} {
      assert a + b == a;
    } else {
      var k :| k in b;
      SumPick(b, f, k);
      SumPick(a + b, f, k);
      assert a + b - {k} == a + (b - {k});
      SumUnion(a, b - {k}, f);
    }
  }

  lemma {:induction false} SumPlus<K(!new)>(keys: set<K>, f: K -> int, g: K -> int, h: K -> int)
    requires forall k :: k in keys ==> h(k) == f(k) + g(k)
    ensures SumBy(keys, h) == SumBy(keys, f) + SumBy(keys, g)
    decreases |keys|
  {
    if keys != {} {
      var k :| k in keys;
      SumPick(keys, f, k);
      SumPick(keys, g, k);
      SumPick(keys, h, k);
      SumPlus(keys - {k}, f, g, h);
    }
  }

  lemma {:induction false} SumAtMost<K(!new)>(keys: set<K>, f: K -> int, g: K -> int)
    requires forall k :: k in keys ==> f(k) <= g(k)
    ensures SumBy(keys, f) <= SumBy(keys, g)
    decreases |keys|
  {
    if keys != {} {
      var k :| k in keys;
      SumPick(keys, f, k);
      SumPick(keys, g, k);
      SumAtMost(keys - {k}, f, g);
    }
  }

  lemma {:induction false} SumNonNegative<K(!new)>(keys: set<K>, f: K -> int)
    requires forall k :: k in keys ==> 0 <= f(k)
    ensures 0 <= SumBy(keys, f)
    decreases |keys|
  {
    if keys != {} {
      var k :| k in keys;
      SumPick(keys, f, k);
      SumNonNegative(keys - {k}, f);
    }
  }

  lemma SumMonotone<K(!new)>(a: set<K>, b: set<K>, f: K -> int)
    requires a <= b
    requires forall k :: k in b ==> 0 <= f(k)
    ensures SumBy(a, f) <= SumBy(b, f)
  {
    SumUnion(a, b - a, f);
    assert a + (b - a) == b;
    SumNonNegative(b - a, f);
  }

  // ---- Sums over the rows of a table ----

  ghost function Tally<K(!new), V(!new)>(table: map<K, V>, weight: V -> int): int {
    SumBy(table.Keys, k => if k in table then weight(table[k]) else 0)
  }

  lemma TallyUpdate<K(!new), V(!new)>(table: map<K, V>, k: K, row: V, weight: V -> int)
    requires k in table
    ensures Tally(table[k := row], weight) == Tally(table, weight) - weight(table[k]) + weight(row)
  {
    var after := table[k := row];
    var f := i => if i in table then weight(table[i]) else 0;
    var g := i => if i in after then weight(after[i]) else 0;
    assert after.Keys == table.Keys;
    SumPick(table.Keys, f, k);
    SumPick(table.Keys, g, k);
    SumSame(table.Keys - {k}, f, g);
  }

  lemma TallyInsert<K(!new), V(!new)>(table: map<K, V>, k: K, row: V, weight: V -> int)
    requires k !in table
    ensures Tally(table[k := row], weight) == Tally(table, weight) + weight(row)
  {
    var after := table[k := row];
    var f := i => if i in table then weight(table[i]) else 0;
    var g := i => if i in after then weight(after[i]) else 0;
    assert after.Keys == table.Keys + {k};
    SumAdd(table.Keys, g, k);
    SumSame(table.Keys, f, g);
  }

  lemma TallyDelete<K(!new), V(!new)>(table: map<K, V>, k: K, weight: V -> int)
    requires k in table
    ensures Tally(table - {k}, weight) == Tally(table, weight) - weight(table[k])
  {
    var after := table - {k};
    TallyInsert(after, k, table[k], weight);
    assert after[k := table[k]] == table;
  }

  lemma TallySame<K(!new), V(!new)>(a: map<K, V>, b: map<K, V>, v: V -> int, w: V -> int)
    requires a.Keys == b.Keys
    requires forall k :: k in a ==> v(a[k]) == w(b[k])
    ensures Tally(a, v) == Tally(b, w)
  {
    SumSame(a.Keys, k => if k in a then v(a[k]) else 0, k => if k in b then w(b[k]) else 0);
  }

  lemma TallyPlus<K(!new), V(!new)>(table: map<K, V>, u: V -> int, v: V -> int, w: V -> int)
    requires forall k :: k in table ==> w(table[k]) == u(table[k]) + v(table[k])
    ensures Tally(table, w) == Tally(table, u) + Tally(table, v)
  {
    SumPlus(table.Keys,
            k => if k in table then u(table[k]) else 0,
            k => if k in table then v(table[k]) else 0,
            k => if k in table then w(table[k]) else 0);
  }

  lemma TallyAtMost<K(!new), V(!new)>(table: map<K, V>, v: V -> int, w: V -> int)
    requires forall k :: k in table ==> v(table[k]) <= w(table[k])
    ensures Tally(table, v) <= Tally(table, w)
  {
    SumAtMost(table.Keys,
              k => if k in table then v(table[k]) else 0,
              k => if k in table then w(table[k]) else 0);
  }

  lemma TallyAtLeast<K(!new), V(!new)>(table: map<K, V>, k: K, weight: V -> int)
    requires k in table
    requires forall j :: j in table ==> 0 <= weight(table[j])
    ensures weight(table[k]) <= Tally(table, weight)
  {
    var rest := table - {k};
    TallyDelete(table, k, weight);
    SumNonNegative(rest.Keys, j => if j in rest then weight(rest[j]) else 0);
  }

  lemma TallyZero<K(!new), V(!new)>(table: map<K, V>, w: V -> int)
    requires forall k :: k in table ==> w(table[k]) == 0
    ensures Tally(table, w) == 0
  {
    var f := k => if k in table then w(table[k]) else 0;
    SumAtMost(table.Keys, f, k => 0);
    SumAtMost(table.Keys, k => 0, f);
    SumZero(table.Keys);
  }

  lemma {:induction false} SumZero<K(!new)>(keys: set<K>)
    ensures SumBy(keys, k => 0) == 0
    decreases |keys|
  {
    if keys != {} {
      var k :| k in keys;
      SumPick(keys, k => 0, k);
      SumZero(keys - {k});
    }
  }

  ghost function KeysWhere<K(!new), V(!new)>(table: map<K, V>, p: V -> bool): set<K> {
    set k | k in table && p(table[k])
  }

  // Counting rows is counting keys.
  lemma {:induction false} TallyCount<K(!new), V(!new)>(table: map<K, V>, p: V -> bool, w: V -> int)
    requires forall k :: k in table ==> w(table[k]) == if p(table[k]) then 1 else 0
    ensures Tally(table, w) == |KeysWhere(table, p)|
    decreases |table|
  {
    if table == map[] {
      assert KeysWhere(table, p) == {};
    } else {
      var k :| k in table;
      var rest := table - {k};
      TallyDelete(table, k, w);
      TallyCount(rest, p, w);
      assert KeysWhere(table, p) == if p(table[k]) then KeysWhere(rest, p) + {k} else KeysWhere(rest, p);
    }
  }

  // ---- Distinct numbers in a range ----

  ghost predicate Numbers<K(!new)>(keys: set<K>, f: K -> int, lo: int, hi: int) {
    && (forall k :: k in keys ==> lo <= f(k) < hi)
    && (forall j, k :: j in keys && k in keys && f(j) == f(k) ==> j == k)
  }

  lemma {:induction false} AtMostRange<K(!new)>(keys: set<K>, f: K -> int, lo: int, hi: int)
    requires Numbers(keys, f, lo, hi) && lo <= hi
    ensures |keys| <= hi - lo
    decreases hi - lo
  {
    if keys != {} {
      var x :| x in keys;
      assert lo <= f(x) < hi;
      if k :| k in keys && f(k) == hi - 1 {
        AtMostRange(keys - {k}, f, lo, hi - 1);
      } else {
        AtMostRange(keys, f, lo, hi - 1);
      }
    }
  }

  // As many distinct numbers as the range has take every value in it.
  lemma {:induction false} FillsRange<K(!new)>(keys: set<K>, f: K -> int, lo: int, hi: int, v: int) returns (k: K)
    requires Numbers(keys, f, lo, hi) && |keys| == hi - lo && lo <= v < hi
    ensures k in keys && f(k) == v
    decreases hi - lo
  {
    if forall j :: j in keys ==> f(j) != hi - 1 { AtMostRange(keys, f, lo, hi - 1); }
    k :| k in keys && f(k) == hi - 1;
    if v < hi - 1 { k := FillsRange(keys - {k}, f, lo, hi - 1, v); }
  }
}
