/** Per-site score tables: position -> [cDNA weight, read count], the key-wise
    accumulation `_update` performs on them, and sums over map values. */
module Tables {

  /** The pair `[cDNA, reads]` stored per output position. */
  datatype Counts = Counts(cdna: real, readCount: nat)

  const Zero := Counts(0.0, 0)

  function Plus(a: Counts, b: Counts): Counts
  {
    Counts(a.cdna + b.cdna, a.readCount + b.readCount)
  }

  /** Position -> counts, for one (chrom, strand). */
  type Table = map<int, Counts>

  /** `cur_vals.get(pos, [0, 0])`. */
  function Get(t: Table, p: int): Counts
  {
    if p in t then t[p] else Zero
  }

  /** Every entry has at least one read, positive cDNA weight, and no more cDNA
      weight than reads. */
  predicate Bounded(t: Table)
  {
    forall p :: p in t ==> 0.0 < t[p].cdna <= t[p].readCount as real
  }

  /** Some element of a non-empty set (Hilbert's choice). */
  ghost function Pick<K>(s: set<K>): (k: K)
    requires s != {}
    ensures k in s
  {
    var k :| k in s; k
  }

  /** Sum of all values of a map, in no particular order (addition is
      commutative, so the choice of key does not matter: see SumMapPick). */
  ghost function SumMap<K>(m: map<K, Counts>): Counts
    decreases |m|
  {
    if |m| == 0 then Zero
    else
      var k := Pick(m.Keys);
      Plus(m[k], SumMap(m - {k}))
  }

  /** Any key can be taken out first. */
  lemma {:induction false} SumMapPick<K>(m: map<K, Counts>, k: K)
    requires k in m
    ensures SumMap(m) == Plus(m[k], SumMap(m - {k}))
    decreases |m|
  {
    var j := Pick(m.Keys);
    if j != k {
      var mj, mk := m - {j}, m - {k};
      assert |mj| == |m| - 1 && |mk| == |m| - 1;
      assert mj[k] == m[k] && mk[j] == m[j];
      SumMapPick(mj, k);
      SumMapPick(mk, j);
      assert mj - {k} == mk - {j};
      var rest := SumMap(mj - {k});
      calc {
        SumMap(m);
        Plus(m[j], SumMap(mj));
        Plus(m[j], Plus(m[k], rest));
        Plus(m[k], Plus(m[j], rest));
        Plus(m[k], SumMap(mk));
      }
    }
  }

  /** Adding a new key adds its value to the sum. */
  lemma SumMapAdd<K>(m: map<K, Counts>, k: K, v: Counts)
    requires k !in m
    ensures SumMap(m[k := v]) == Plus(v, SumMap(m))
  {
    SumMapPick(m[k := v], k);
    assert m[k := v] - {k} == m;
  }

  lemma SumMapEmpty<K>(m: map<K, Counts>)
    requires |m| == 0
    ensures SumMap(m) == Zero
  {
  }

  /** A map of zeros sums to zero. */
  lemma {:induction false} SumMapZeros<K>(m: map<K, Counts>)
    requires forall k :: k in m ==> m[k] == Zero
    ensures SumMap(m) == Zero
    decreases |m|
  {
    if |m| != 0 {
      var k := Pick(m.Keys);
      assert |m - {k}| == |m| - 1;
      SumMapZeros(m - {k});
    }
  }

  /** A key-wise bound on read counts bounds the sums. */
  lemma {:induction false} SumMapReadsMono<K>(m1: map<K, Counts>, m2: map<K, Counts>)
    requires m1.Keys == m2.Keys
    requires forall k :: k in m1 ==> m1[k].readCount <= m2[k].readCount
    ensures SumMap(m1).readCount <= SumMap(m2).readCount
    decreases |m1|
  {
    if |m1| != 0 {
      var k := Pick(m1.Keys);
      SumMapPick(m2, k);
      assert |m1 - {k}| == |m1| - 1;
      SumMapReadsMono(m1 - {k}, m2 - {k});
    }
  }

  /** Sum of the naturals a map holds (the barcode counter). */
  ghost function SumNat<K>(m: map<K, nat>): nat
    decreases |m|
  {
    if |m| == 0 then 0
    else
      var k := Pick(m.Keys);
      m[k] + SumNat(m - {k})
  }

  lemma {:induction false} SumNatPick<K>(m: map<K, nat>, k: K)
    requires k in m
    ensures SumNat(m) == m[k] + SumNat(m - {k})
    decreases |m|
  {
    var j := Pick(m.Keys);
    if j != k {
      var mj, mk := m - {j}, m - {k};
      assert |mj| == |m| - 1 && |mk| == |m| - 1;
      assert mj[k] == m[k] && mk[j] == m[j];
      SumNatPick(mj, k);
      SumNatPick(mk, j);
      assert mj - {k} == mk - {j};
    }
  }

  /** `d[k] = d.get(k, 0) + 1` raises the sum by exactly one. */
  lemma SumNatIncrement<K>(m: map<K, nat>, k: K)
    ensures SumNat(m[k := (if k in m then m[k] else 0) + 1]) == SumNat(m) + 1
  {
    var m' := m[k := (if k in m then m[k] else 0) + 1];
    SumNatPick(m', k);
    if k in m {
      SumNatPick(m, k);
      assert m' - {k} == m - {k};
    } else {
      assert m' - {k} == m;
    }
  }

  lemma PlusSwap(a: Counts, b: Counts, c: Counts)
    ensures Plus(Plus(a, b), c) == Plus(Plus(a, c), b)
  {
  }

  /** The key-wise sum of two tables, a missing entry counting as zeros. */
  function AddAll(cur: Table, toAdd: Table): Table
  {
    map p | p in cur.Keys + toAdd.Keys :: Plus(Get(cur, p), Get(toAdd, p))
  }

  /** Adding an empty table changes nothing. */
  lemma AddAllNothing(cur: Table, toAdd: Table)
    requires |toAdd| == 0
    ensures AddAll(cur, toAdd) == cur
  {
    assert toAdd.Keys == {};
    var r := AddAll(cur, toAdd);
    assert r.Keys == cur.Keys;
    forall p | p in r
      ensures r[p] == cur[p]
    {
      assert Get(toAdd, p) == Zero;
    }
  }

  /** Adding one more entry of `toAdd` is one key-wise addition. */
  lemma AddAllStep(cur: Table, toAdd: Table, k: int)
    requires k in toAdd
    ensures AddAll(cur, toAdd) == AddAll(cur, toAdd - {k})[k := Plus(Get(AddAll(cur, toAdd - {k}), k), toAdd[k])]
  {
    var prev := AddAll(cur, toAdd - {k});
    var next := prev[k := Plus(Get(prev, k), toAdd[k])];
    assert next.Keys == AddAll(cur, toAdd).Keys;
    forall p | p in next
      ensures next[p] == AddAll(cur, toAdd)[p]
    {
    }
  }

  /** Key-wise addition keeps every entry bounded. */
  lemma AddAllBounded(cur: Table, toAdd: Table)
    requires Bounded(cur) && Bounded(toAdd)
    ensures Bounded(AddAll(cur, toAdd))
  {
  }

  /** A table that holds, at every key of either input, the sum of their entries. */
  lemma KeywiseIsAddAll(r: Table, cur: Table, toAdd: Table)
    requires r.Keys == cur.Keys + toAdd.Keys
    requires forall p :: p in r ==> r[p] == Plus(Get(cur, p), Get(toAdd, p))
    ensures r == AddAll(cur, toAdd)
  {
  }

  /** `_update(cur_vals, to_add)`: adds every entry of `toAdd` into `cur`
      element-wise, a missing entry of `cur` counting as zeros. */
  method Update(cur: Table, toAdd: Table) returns (r: Table)
    ensures r.Keys == cur.Keys + toAdd.Keys
    ensures forall p :: p in toAdd ==> r[p] == Plus(Get(cur, p), toAdd[p])
    ensures forall p :: p in cur && p !in toAdd ==> r[p] == cur[p]
    ensures r == AddAll(cur, toAdd)
  {
    r := cur;
    var todo := toAdd.Keys;
    ghost var done: set<int> := {};
    while todo != {}
      invariant todo <= toAdd.Keys
      invariant done == toAdd.Keys - todo
      invariant r.Keys == cur.Keys + done
      invariant forall p :: p in done ==> r[p] == Plus(Get(cur, p), toAdd[p])
      invariant forall p :: p in r && p !in done ==> r[p] == cur[p]
      decreases todo
    {
      ghost var w := Pick(todo);
      assert w in todo;
      var p :| p in todo;
      r := r[p := Plus(Get(r, p), toAdd[p])];
      done := done + {p};
      todo := todo - {p};
    }
    KeywiseIsAddAll(r, cur, toAdd);
  }
}
