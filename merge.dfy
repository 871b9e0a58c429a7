/** Merging of similar random barcodes at one cross-link position: ambiguous
    barcodes (holding 'N') are first assigned to the most frequent matching
    unambiguous one, then matching barcodes are merged pass by pass, most
    frequent first, until no two remaining barcodes match. */
module Merge {
  import opened Types
  import opened Order
  import opened Barcodes
  import Tables

  // ---------------------------------------------------------------------------
  // The pool of hits and moving a barcode's hits

  /** All hits held under any barcode, as a multiset. */
  ghost function Pool(m: ByBarcode): multiset<Hit>
    decreases |m|
  {
    if |m| == 0 then multiset{}
    else
      var k := Tables.Pick(m.Keys);
      multiset(m[k]) + Pool(m - {k})
  }

  /** Any barcode can be taken out first. */
  lemma {:induction false} PoolPick(m: ByBarcode, k: string)
    requires k in m
    ensures Pool(m) == multiset(m[k]) + Pool(m - {k})
    decreases |m|
  {
    var j := Tables.Pick(m.Keys);
    if j != k {
      var mj, mk := m - {j}, m - {k};
      assert |mj| == |m| - 1 && |mk| == |m| - 1;
      assert mj[k] == m[k] && mk[j] == m[j];
      PoolPick(mj, k);
      PoolPick(mk, j);
      RemoveBoth(m, j, k);
    }
  }

  /** Taking out two keys in either order gives the same map. */
  lemma RemoveBoth(m: ByBarcode, j: string, k: string)
    ensures m - {j} - {k} == m - {k} - {j}
  {
  }

  /** `by_bc[into].extend(by_bc.pop(from))`. */
  function Move(m: ByBarcode, from: string, into: string): (r: ByBarcode)
    requires from in m && into in m && from != into
  {
    m[into := m[into] + m[from]] - {from}
  }

  /** Moving hits between barcodes loses and creates none. */
  lemma PoolMove(m: ByBarcode, from: string, into: string)
    requires from in m && into in m && from != into
    ensures Pool(Move(m, from, into)) == Pool(m)
    ensures Move(m, from, into).Keys == m.Keys - {from}
  {
    var m1 := m - {from};
    assert m1[into] == m[into];
    assert Move(m, from, into) == m1[into := m[into] + m[from]];
    PoolPick(m, from);
    PoolPick(m1, into);
    PoolReplace(m1, into, m[into] + m[from]);
    assert multiset(m[into] + m[from]) == multiset(m[into]) + multiset(m[from]);
  }

  /** Replacing the hits of a present barcode swaps them in the pool. */
  lemma PoolReplace(m: ByBarcode, k: string, v: seq<Hit>)
    requires k in m
    ensures Pool(m[k := v]) == multiset(v) + Pool(m - {k})
  {
    PoolPick(m[k := v], k);
    assert m[k := v] - {k} == m - {k};
  }

  // ---------------------------------------------------------------------------
  // Ranking and the fixed point

  /** `(len(hits), bc)`, the tuple barcodes are ranked by. */
  function RankOf(m: ByBarcode, b: string): Rank
    requires b in m
  {
    Rank(|m[b]|, b)
  }

  /** No two distinct remaining barcodes match: the state phase 2 ends in. */
  predicate Merged(m: ByBarcode, mismatches: int)
  {
    forall a, b :: a in m && b in m && a != b ==> !Match(a, b, mismatches)
  }

  /** `barcode.count('N')`. */
  function NCount(bc: string): nat
  {
    multiset(bc)['N']
  }

  // ---------------------------------------------------------------------------
  // Phase 1: ambiguous barcodes

  /** The ranks of the barcodes of `m` that lie in `keys`. */
  function RanksOf(m: ByBarcode, keys: set<string>): set<Rank>
  {
    set b | b in m && b in keys :: RankOf(m, b)
  }

  /** A rank of `RanksOf(m, keys)` is the rank of its own barcode. */
  lemma RanksOfMember(m: ByBarcode, keys: set<string>, x: Rank)
    requires x in RanksOf(m, keys)
    ensures x.bc in m && x.bc in keys && x == RankOf(m, x.bc)
  {
  }

  /** The barcode of the first tuple from position `k` of `order` that
      matches `amb`, if any. */
  function FirstMatch(order: seq<Rank>, k: nat, amb: string, mismatches: int): Option<string>
    decreases |order| - k
  {
    if k >= |order| then None
    else if Match(order[k].bc, amb, mismatches) then Some(order[k].bc)
    else FirstMatch(order, k + 1, amb, mismatches)
  }

  /** Where phase 1 sends the ambiguous barcode `amb`: the first match in the
      accepted barcodes ranked by descending `(len(hits), barcode)`. */
  ghost function TargetOf(r: ByBarcode, accepted: set<string>, amb: string, mismatches: int): Option<string>
  {
    FirstMatch(SortedRanks(RanksOf(r, accepted), true), 0, amb, mismatches)
  }

  /** One step of phase 1 for the ambiguous barcode `amb`: its hits move to the
      matching barcode of `accepted` that has the most hits (ties going to the
      greater barcode), which is the first match in descending
      `(len(hits), barcode)` order; without a match, `amb` itself is accepted. */
  method Assign(r: ByBarcode, accepted: set<string>, amb: string, mismatches: int)
    returns (r': ByBarcode, accepted': set<string>, target: Option<string>)
    requires accepted <= r.Keys && amb in r && amb !in accepted
    ensures target.None? ==> (forall b :: b in accepted ==> !Match(b, amb, mismatches))
                             && r' == r && accepted' == accepted + {amb}
    ensures target.Some? ==> target.value in accepted && Match(target.value, amb, mismatches)
    ensures target.Some? ==> forall c :: c in accepted && c != target.value && Match(c, amb, mismatches) ==>
                                RankLess(RankOf(r, c), RankOf(r, target.value))
    ensures target.Some? ==> r' == Move(r, amb, target.value) && accepted' == accepted
    ensures target == TargetOf(r, accepted, amb, mismatches)
  {
    var order := Sorted(RanksOf(r, accepted), true);
    var k := 0;
    while k < |order| && !Match(order[k].bc, amb, mismatches)
      invariant 0 <= k <= |order|
      invariant forall j :: 0 <= j < k ==> !Match(order[j].bc, amb, mismatches)
      invariant FirstMatch(order, k, amb, mismatches) == FirstMatch(order, 0, amb, mismatches)
    {
      k := k + 1;
    }
    if k < |order| {
      var t := order[k].bc;
      RanksOfMember(r, accepted, order[k]);
      forall c | c in accepted && c != t && Match(c, amb, mismatches)
        ensures RankLess(RankOf(r, c), RankOf(r, t))
      {
        assert RankOf(r, c) in RanksOf(r, accepted);
        var jc :| 0 <= jc < |order| && order[jc] == RankOf(r, c);
        assert jc > k;
      }
      r', accepted', target := Move(r, amb, t), accepted, Some(t);
    } else {
      forall b | b in accepted
        ensures !Match(b, amb, mismatches)
      {
        assert RankOf(r, b) in RanksOf(r, accepted);
        var j :| 0 <= j < |order| && order[j] == RankOf(r, b);
      }
      r', accepted', target := r, accepted + {amb}, None;
    }
  }

  /** The barcodes without 'N', accepted from the start. */
  function Unambiguous(m: ByBarcode): set<string>
  {
    set b | b in m && NCount(b) == 0
  }

  /** The ambiguous barcodes with their `(N-count, barcode)` sort keys. */
  function Ambiguous(m: ByBarcode): set<Rank>
  {
    set b | b in m && NCount(b) != 0 :: Rank(NCount(b), b)
  }

  /** Distinct positions of an ordering of `Ambiguous(m)` hold distinct barcodes. */
  lemma AmbiguousDistinct(m: ByBarcode, order: seq<Rank>, i: int, j: int)
    requires forall x :: x in order <==> x in Ambiguous(m)
    requires StrictlyOrdered(order, false)
    requires 0 <= i < |order| && 0 <= j < |order| && i != j
    ensures order[i].bc != order[j].bc
  {
    StrictlyOrderedDistinct(order, false, i, j);
    assert order[i] in Ambiguous(m) && order[j] in Ambiguous(m);
  }

  /** An ordering of the ambiguous barcodes lists each of them once. */
  lemma AmbiguousOrder(m: ByBarcode, order: seq<Rank>)
    requires forall x :: x in order <==> x in Ambiguous(m)
    requires StrictlyOrdered(order, false)
    ensures forall b :: b in m && NCount(b) != 0 ==> exists j :: 0 <= j < |order| && order[j].bc == b
    ensures forall j :: 0 <= j < |order| ==> order[j].bc in m && NCount(order[j].bc) != 0
    ensures forall i, j :: 0 <= i < j < |order| ==> order[i].bc != order[j].bc
  {
    forall b | b in m && NCount(b) != 0
      ensures exists j :: 0 <= j < |order| && order[j].bc == b
    {
      assert Rank(NCount(b), b) in Ambiguous(m);
      var j :| 0 <= j < |order| && order[j] == Rank(NCount(b), b);
    }
    forall j | 0 <= j < |order|
      ensures order[j].bc in m && NCount(order[j].bc) != 0
    {
      assert order[j] in Ambiguous(m);
    }
    forall i, j | 0 <= i < j < |order|
      ensures order[i].bc != order[j].bc
    {
      AmbiguousDistinct(m, order, i, j);
    }
  }

  /** Phase 1 from position `i` of `amb` on, as a value: each ambiguous barcode
      in turn hands its hits to its target, or joins the accepted barcodes when
      it has none. */
  ghost function Phase1From(r: ByBarcode, accepted: set<string>, amb: seq<Rank>, i: nat, mismatches: int): ByBarcode
    decreases |amb| - i
  {
    if i >= |amb| then r
    else
      var a := amb[i].bc;
      var t := TargetOf(r, accepted, a, mismatches);
      if t.Some? && a in r && t.value in r && t.value != a then Phase1From(Move(r, a, t.value), accepted, amb, i + 1, mismatches)
      else Phase1From(r, accepted + {a}, amb, i + 1, mismatches)
  }

  /** The bucket phase 1 leaves: the unambiguous barcodes start out accepted,
      and the ambiguous ones are visited in ascending `(N-count, barcode)` order. */
  ghost function Phase1Of(m: ByBarcode, mismatches: int): ByBarcode
  {
    Phase1From(m, Unambiguous(m), SortedRanks(Ambiguous(m), false), 0, mismatches)
  }

  /** One call of `Assign` is one step of `Phase1From`. */
  lemma Phase1FromStep(r: ByBarcode, accepted: set<string>, amb: seq<Rank>, i: nat, mismatches: int,
                       r': ByBarcode, accepted': set<string>, target: Option<string>)
    requires i < |amb| && accepted <= r.Keys && amb[i].bc in r && amb[i].bc !in accepted
    requires target == TargetOf(r, accepted, amb[i].bc, mismatches)
    requires target.None? ==> r' == r && accepted' == accepted + {amb[i].bc}
    requires target.Some? ==> target.value in accepted && r' == Move(r, amb[i].bc, target.value) && accepted' == accepted
    ensures Phase1From(r, accepted, amb, i, mismatches) == Phase1From(r', accepted', amb, i + 1, mismatches)
  {
  }

  /** What holds of phase 1 once the first `i` ambiguous barcodes of `order`
      have been assigned. */
  ghost predicate Phase1(byBc: ByBarcode, order: seq<Rank>, i: int, mismatches: int,
                         r: ByBarcode, accepted: set<string>)
  {
    && 0 <= i <= |order|
    && accepted <= r.Keys <= byBc.Keys
    && (forall b :: b in byBc && NCount(b) == 0 ==> b in accepted)
    && (forall j :: i <= j < |order| ==> order[j].bc in r && order[j].bc !in accepted)
    && (forall b :: b in r ==> b in accepted || exists j :: i <= j < |order| && order[j].bc == b)
    && Pool(r) == Pool(byBc)
    && (forall b :: b in r ==> byBc[b] <= r[b])
    && (Merged(byBc, mismatches) ==> r == byBc)
  }

  /** Assigning the `i`-th ambiguous barcode keeps `Phase1`. */
  lemma Phase1Step(byBc: ByBarcode, order: seq<Rank>, i: int, mismatches: int,
                   r: ByBarcode, accepted: set<string>,
                   r': ByBarcode, accepted': set<string>, target: Option<string>)
    requires Phase1(byBc, order, i, mismatches, r, accepted) && i < |order|
    requires forall i, j :: 0 <= i < j < |order| ==> order[i].bc != order[j].bc
    requires accepted <= r.Keys && order[i].bc in r && order[i].bc !in accepted
    requires target.None? ==> (forall b :: b in accepted ==> !Match(b, order[i].bc, mismatches))
                              && r' == r && accepted' == accepted + {order[i].bc}
    requires target.Some? ==> target.value in accepted && Match(target.value, order[i].bc, mismatches)
                              && r' == Move(r, order[i].bc, target.value) && accepted' == accepted
    ensures Phase1(byBc, order, i + 1, mismatches, r', accepted')
  {
    if target.Some? {
      Phase1Move(byBc, order, i, mismatches, r, accepted, target.value);
    } else {
      Phase1Accept(byBc, order, i, mismatches, r, accepted);
    }
  }

  /** An ambiguous barcode without a match joins the accepted ones. */
  lemma Phase1Accept(byBc: ByBarcode, order: seq<Rank>, i: int, mismatches: int,
                     r: ByBarcode, accepted: set<string>)
    requires Phase1(byBc, order, i, mismatches, r, accepted) && i < |order|
    requires forall i, j :: 0 <= i < j < |order| ==> order[i].bc != order[j].bc
    ensures Phase1(byBc, order, i + 1, mismatches, r, accepted + {order[i].bc})
  {
    forall b | b in r && b !in accepted + {order[i].bc}
      ensures exists j :: i + 1 <= j < |order| && order[j].bc == b
    {
      var j :| i <= j < |order| && order[j].bc == b;
    }
  }

  /** An ambiguous barcode with a match hands its hits to it. */
  lemma Phase1Move(byBc: ByBarcode, order: seq<Rank>, i: int, mismatches: int,
                   r: ByBarcode, accepted: set<string>, t: string)
    requires Phase1(byBc, order, i, mismatches, r, accepted) && i < |order|
    requires forall i, j :: 0 <= i < j < |order| ==> order[i].bc != order[j].bc
    requires t in accepted && Match(t, order[i].bc, mismatches)
    ensures Phase1(byBc, order, i + 1, mismatches, Move(r, order[i].bc, t), accepted)
  {
    var amb := order[i].bc;
    var r' := Move(r, amb, t);
    PoolMove(r, amb, t);
    assert !Merged(byBc, mismatches) || r == byBc;
    forall b | b in r' && b !in accepted
      ensures exists j :: i + 1 <= j < |order| && order[j].bc == b
    {
      var j :| i <= j < |order| && order[j].bc == b;
    }
  }

  /** Phase 1: visits the ambiguous barcodes in ascending `(N-count, barcode)`
      order and assigns each (see `Assign`). Afterwards every remaining barcode
      is accepted, no unambiguous barcode has gone, no hit is lost or created,
      and every surviving barcode still starts with its original hits. */
  method AssignAmbiguous(byBc: ByBarcode, mismatches: int) returns (r: ByBarcode, accepted: set<string>)
    ensures accepted == r.Keys
    ensures r.Keys <= byBc.Keys
    ensures forall b :: b in byBc && NCount(b) == 0 ==> b in r
    ensures Pool(r) == Pool(byBc)
    ensures forall b :: b in r ==> byBc[b] <= r[b]
    ensures Merged(byBc, mismatches) ==> r == byBc
    ensures r == Phase1Of(byBc, mismatches)
  {
    accepted := Unambiguous(byBc);
    var ambOrder := Sorted(Ambiguous(byBc), false);
    r := byBc;
    AmbiguousOrder(byBc, ambOrder);
    for i := 0 to |ambOrder|
      invariant Phase1(byBc, ambOrder, i, mismatches, r, accepted)
      invariant Phase1From(r, accepted, ambOrder, i, mismatches) == Phase1Of(byBc, mismatches)
    {
      var r', accepted', target := Assign(r, accepted, ambOrder[i].bc, mismatches);
      Phase1Step(byBc, ambOrder, i, mismatches, r, accepted, r', accepted', target);
      Phase1FromStep(r, accepted, ambOrder, i, mismatches, r', accepted', target);
      r, accepted := r', accepted';
    }
  }

  // ---------------------------------------------------------------------------
  // Phase 2: merging matching barcodes, most frequent first

  /** `order` lists each barcode of `m` exactly once (by its rank). */
  ghost predicate Lists(order: seq<Rank>, m: ByBarcode)
  {
    && (forall j :: 0 <= j < |order| ==> order[j].bc in m && order[j] == RankOf(m, order[j].bc))
    && (forall b :: b in m ==> exists j :: 0 <= j < |order| && order[j].bc == b)
    && Distinct(order)
  }

  /** No barcode appears twice in `order`. */
  predicate Distinct(order: seq<Rank>)
  {
    forall i, j :: 0 <= i < j < |order| ==> order[i].bc != order[j].bc
  }

  /** What holds in the inner loop of a pass once positions before `k` have
      been tried against the barcode at position `i`. */
  ghost predicate Absorbing(r0: ByBarcode, order: seq<Rank>, i: int, k: int, mismatches: int,
                            r: ByBarcode, any: bool)
    requires 0 <= i < |order|
  {
    && i < k <= |order|
    && r.Keys <= r0.Keys
    && (forall j :: 0 <= j < |order| && (j <= i || k <= j) ==> order[j].bc in r)
    && (forall j :: i < j < k ==> (order[j].bc in r <==> !Match(order[i].bc, order[j].bc, mismatches)))
    && (any <==> exists j :: i < j < k && Match(order[i].bc, order[j].bc, mismatches))
    && (!any ==> r == r0)
    && (forall b :: b in r && b != order[i].bc ==> r[b] == r0[b])
    && r0[order[i].bc] <= r[order[i].bc]
  }

  /** The barcode at position `i` holds its own hits followed by those of its
      matches at positions `i + 1` up to `k`, in that order. */
  ghost predicate PivotHits(r0: ByBarcode, order: seq<Rank>, i: int, k: int, mismatches: int, r: ByBarcode)
    requires 0 <= i < k <= |order|
  {
    var p := order[i].bc;
    p in r && p in r0 && r[p] == r0[p] + HitsIn(r0, order, i + 1, k, Matching(r0, p, mismatches))
  }

  /** Before any match is tried, the barcode at `i` holds just its own hits. */
  lemma PivotHitsStart(r0: ByBarcode, order: seq<Rank>, i: int, mismatches: int)
    requires 0 <= i < |order| && order[i].bc in r0
    ensures PivotHits(r0, order, i, i + 1, mismatches, r0)
  {
    assert r0[order[i].bc] + [] == r0[order[i].bc];
  }

  /** A match at `k` appends its hits to those of the barcode at `i`. */
  lemma PivotHitsMatch(r0: ByBarcode, order: seq<Rank>, i: int, k: int, mismatches: int, r: ByBarcode)
    requires 0 <= i < k < |order| && PivotHits(r0, order, i, k, mismatches, r)
    requires order[k].bc in r && order[k].bc in r0 && order[k].bc != order[i].bc && r[order[k].bc] == r0[order[k].bc]
    requires Match(order[i].bc, order[k].bc, mismatches)
    ensures PivotHits(r0, order, i, k + 1, mismatches, Move(r, order[k].bc, order[i].bc))
  {
    assert order[k].bc in Matching(r0, order[i].bc, mismatches);
  }

  /** No match at `k` appends nothing. */
  lemma PivotHitsSkip(r0: ByBarcode, order: seq<Rank>, i: int, k: int, mismatches: int, r: ByBarcode)
    requires 0 <= i < k < |order| && PivotHits(r0, order, i, k, mismatches, r)
    requires !Match(order[i].bc, order[k].bc, mismatches)
    ensures PivotHits(r0, order, i, k + 1, mismatches, r)
  {
  }

  /** The other barcodes of `m` that match `p`. */
  function Matching(m: ByBarcode, p: string, mismatches: int): set<string>
  {
    set b | b in m && b != p && Match(p, b, mismatches)
  }

  /** The hits of the barcodes of `keys` listed at positions `lo` up to `hi`
      of `order`, concatenated in that order. */
  function HitsIn(m: ByBarcode, order: seq<Rank>, lo: nat, hi: nat, keys: set<string>): seq<Hit>
    decreases hi - lo
  {
    if hi <= lo || hi > |order| then []
    else
      var b := order[hi - 1].bc;
      HitsIn(m, order, lo, hi - 1, keys) + (if b in m && b in keys then m[b] else [])
  }

  /** Gathering hits over two adjacent stretches of a listing. */
  lemma {:induction false} HitsInSplit(m: ByBarcode, order: seq<Rank>, lo: nat, mid: nat, hi: nat, keys: set<string>)
    requires lo <= mid <= hi <= |order|
    ensures HitsIn(m, order, lo, hi, keys) == HitsIn(m, order, lo, mid, keys) + HitsIn(m, order, mid, hi, keys)
    decreases hi - mid
  {
    if hi > mid {
      HitsInSplit(m, order, lo, mid, hi - 1, keys);
    }
  }

  /** A stretch none of whose barcodes is in `keys` gathers no hits. */
  lemma {:induction false} HitsInNone(m: ByBarcode, order: seq<Rank>, lo: nat, hi: nat, keys: set<string>)
    requires forall j :: lo <= j < hi && 0 <= j < |order| ==> order[j].bc !in keys
    ensures HitsIn(m, order, lo, hi, keys) == []
    decreases hi - lo
  {
    if lo < hi <= |order| {
      HitsInNone(m, order, lo, hi - 1, keys);
    }
  }

  /** Key sets that agree on the barcodes of a stretch gather the same hits. */
  lemma {:induction false} HitsInSame(m: ByBarcode, order: seq<Rank>, lo: nat, hi: nat, k1: set<string>, k2: set<string>)
    requires forall j :: lo <= j < hi && 0 <= j < |order| ==> (order[j].bc in k1 <==> order[j].bc in k2)
    ensures HitsIn(m, order, lo, hi, k1) == HitsIn(m, order, lo, hi, k2)
    decreases hi - lo
  {
    if lo < hi <= |order| {
      HitsInSame(m, order, lo, hi - 1, k1, k2);
    }
  }

  /** The barcode at `k` is still there and is not the one at `i`. */
  lemma AbsorbNext(r0: ByBarcode, order: seq<Rank>, i: int, k: int, mismatches: int,
                   r: ByBarcode, any: bool)
    requires Distinct(order) && 0 <= i < k < |order|
    requires Absorbing(r0, order, i, k, mismatches, r, any)
    ensures order[k].bc in r && order[k].bc != order[i].bc
    ensures order[k].bc in r0 && r[order[k].bc] == r0[order[k].bc]
  {
  }

  /** A match at `k` moves its hits onto the barcode at `i`. */
  lemma AbsorbMatch(r0: ByBarcode, order: seq<Rank>, i: int, k: int, mismatches: int,
                    r: ByBarcode, any: bool)
    requires Distinct(order) && 0 <= i < k < |order|
    requires Absorbing(r0, order, i, k, mismatches, r, any)
    requires order[k].bc in r && order[k].bc != order[i].bc
    requires Match(order[i].bc, order[k].bc, mismatches)
    ensures Absorbing(r0, order, i, k + 1, mismatches, Move(r, order[k].bc, order[i].bc), true)
  {
    var p, q := order[i].bc, order[k].bc;
    var r' := Move(r, q, p);
    assert r'.Keys == r.Keys - {q};
    assert forall j :: i < j < k + 1 ==> (order[j].bc in r' <==> !Match(p, order[j].bc, mismatches));
    assert forall j :: 0 <= j < |order| && (j <= i || k + 1 <= j) ==> order[j].bc in r';
  }

  /** No match at `k` leaves everything as it is. */
  lemma AbsorbSkip(r0: ByBarcode, order: seq<Rank>, i: int, k: int, mismatches: int,
                   r: ByBarcode, any: bool)
    requires Distinct(order) && 0 <= i < k < |order|
    requires Absorbing(r0, order, i, k, mismatches, r, any)
    requires !Match(order[i].bc, order[k].bc, mismatches)
    ensures Absorbing(r0, order, i, k + 1, mismatches, r, any)
  {
    assert order[k].bc in r;
  }

  /** The inner loop of a phase-2 pass: every barcode ranked after position `i`
      of `order` that matches the barcode at `i` hands its hits over to it. */
  method Absorb(r0: ByBarcode, order: seq<Rank>, i: int, mismatches: int) returns (r: ByBarcode, any: bool)
    requires Lists(order, r0) && 0 <= i < |order|
    ensures Absorbing(r0, order, i, |order|, mismatches, r, any)
    ensures PivotHits(r0, order, i, |order|, mismatches, r)
    ensures Pool(r) == Pool(r0)
  {
    r, any := r0, false;
    PivotHitsStart(r0, order, i, mismatches);
    for k := i + 1 to |order|
      invariant Absorbing(r0, order, i, k, mismatches, r, any)
      invariant PivotHits(r0, order, i, k, mismatches, r)
      invariant Pool(r) == Pool(r0)
    {
      r, any := AbsorbAt(r0, order, i, k, mismatches, r, any);
    }
  }

  /** The inner loop's body for position `k`: a match there hands its hits to
      the barcode at `i`, and `merged` becomes true. */
  method AbsorbAt(r0: ByBarcode, order: seq<Rank>, i: int, k: int, mismatches: int, r: ByBarcode, any: bool)
    returns (r': ByBarcode, any': bool)
    requires Distinct(order) && 0 <= i < k < |order|
    requires Absorbing(r0, order, i, k, mismatches, r, any) && PivotHits(r0, order, i, k, mismatches, r)
    requires Pool(r) == Pool(r0)
    ensures Absorbing(r0, order, i, k + 1, mismatches, r', any') && PivotHits(r0, order, i, k + 1, mismatches, r')
    ensures Pool(r') == Pool(r0)
  {
    AbsorbNext(r0, order, i, k, mismatches, r, any);
    if Match(order[i].bc, order[k].bc, mismatches) {
      PivotHitsMatch(r0, order, i, k, mismatches, r);
      AbsorbMatch(r0, order, i, k, mismatches, r, any);
      PoolMove(r, order[k].bc, order[i].bc);
      r', any' := Move(r, order[k].bc, order[i].bc), true;
    } else {
      PivotHitsSkip(r0, order, i, k, mismatches, r);
      AbsorbSkip(r0, order, i, k, mismatches, r, any);
      r', any' := r, any;
    }
  }

  /** The barcodes ranked below `p` in `m` that match it. */
  function LowerMatches(m: ByBarcode, p: string, mismatches: int): set<string>
    requires p in m
  {
    set b | b in m && RankLess(RankOf(m, b), RankOf(m, p)) && Match(p, b, mismatches)
  }

  /** Sorting the ranks of all barcodes lists each barcode once. */
  lemma SortedLists(m: ByBarcode, order: seq<Rank>)
    requires forall x :: x in order <==> x in RanksOf(m, m.Keys)
    requires StrictlyOrdered(order, true)
    ensures Lists(order, m)
  {
    forall j | 0 <= j < |order|
      ensures order[j].bc in m && order[j] == RankOf(m, order[j].bc)
    {
      RanksOfMember(m, m.Keys, order[j]);
    }
    forall b | b in m
      ensures exists j :: 0 <= j < |order| && order[j].bc == b
    {
      assert RankOf(m, b) in RanksOf(m, m.Keys);
      var j :| 0 <= j < |order| && order[j] == RankOf(m, b);
    }
    forall i, j | 0 <= i < j < |order|
      ensures order[i].bc != order[j].bc
    {
      StrictlyOrderedDistinct(order, true, i, j);
    }
  }

  /** The position of a barcode in a listing. */
  lemma PositionOf(m: ByBarcode, order: seq<Rank>, b: string) returns (j: int)
    requires Lists(order, m) && b in m
    ensures 0 <= j < |order| && order[j].bc == b
  {
    j :| 0 <= j < |order| && order[j].bc == b;
  }

  /** In descending order, a later position means a lower rank. */
  lemma LaterIsLower(m: ByBarcode, order: seq<Rank>, i: int, j: int)
    requires Lists(order, m) && StrictlyOrdered(order, true)
    requires 0 <= i < |order| && 0 <= j < |order|
    ensures i < j <==> RankLess(RankOf(m, order[j].bc), RankOf(m, order[i].bc))
  {
    var x, y := order[i], order[j];
    assert x == RankOf(m, x.bc) && y == RankOf(m, y.bc);
    if i == j {
      PrecedesIrreflexive(x, true);
    } else if j < i {
      if RankLess(y, x) {
        PrecedesTransitive(x, y, x, true);
        PrecedesIrreflexive(x, true);
      }
    }
  }

  /** A pass that found nothing to merge leaves a merged state. */
  lemma NothingLeftIsMerged(m: ByBarcode, order: seq<Rank>, mismatches: int)
    requires Lists(order, m)
    requires forall i, j :: 0 <= i < j < |order| ==> !Match(order[i].bc, order[j].bc, mismatches)
    ensures Merged(m, mismatches)
  {
    forall a, b | a in m && b in m && a != b
      ensures !Match(a, b, mismatches)
    {
      var ia := PositionOf(m, order, a);
      var ib := PositionOf(m, order, b);
      if ib < ia {
        MatchSymmetric(a, b, mismatches);
      }
    }
  }

  /** The barcode a pass merges into is the highest-ranked one that has a
      matching barcode ranked below it, and exactly those barcodes go. */
  lemma PivotIsHighest(m: ByBarcode, order: seq<Rank>, i: int, mismatches: int, r: ByBarcode)
    requires Lists(order, m) && StrictlyOrdered(order, true) && 0 <= i < |order|
    requires Absorbing(m, order, i, |order|, mismatches, r, true)
    requires forall i', j :: 0 <= i' < i && i' < j < |order| ==> !Match(order[i'].bc, order[j].bc, mismatches)
    ensures LowerMatches(m, order[i].bc, mismatches) != {}
    ensures r.Keys == m.Keys - LowerMatches(m, order[i].bc, mismatches)
    ensures forall q :: q in m && RankLess(RankOf(m, order[i].bc), RankOf(m, q)) ==>
              LowerMatches(m, q, mismatches) == {}
  {
    var p := order[i].bc;
    var j :| i < j < |order| && Match(p, order[j].bc, mismatches);
    LaterIsLower(m, order, i, j);
    assert order[j].bc in LowerMatches(m, p, mismatches);
    PivotKeys(m, order, i, mismatches, r);
    HigherHaveNone(m, order, i, mismatches);
  }

  /** The barcodes a pass removes are exactly the pivot's lower-ranked matches. */
  lemma PivotKeys(m: ByBarcode, order: seq<Rank>, i: int, mismatches: int, r: ByBarcode)
    requires Lists(order, m) && StrictlyOrdered(order, true) && 0 <= i < |order|
    requires Absorbing(m, order, i, |order|, mismatches, r, true)
    ensures r.Keys == m.Keys - LowerMatches(m, order[i].bc, mismatches)
  {
    var lower := LowerMatches(m, order[i].bc, mismatches);
    forall b | b in m
      ensures b in r <==> b !in lower
    {
      var jb := PositionOf(m, order, b);
      LaterIsLower(m, order, i, jb);
    }
    assert r.Keys <= m.Keys;
  }

  /** Barcodes ranked above position `i`, none of which had a later match,
      have no matching barcode ranked below them. */
  lemma HigherHaveNone(m: ByBarcode, order: seq<Rank>, i: int, mismatches: int)
    requires Lists(order, m) && StrictlyOrdered(order, true) && 0 <= i < |order|
    requires forall i', j :: 0 <= i' < i && i' < j < |order| ==> !Match(order[i'].bc, order[j].bc, mismatches)
    ensures forall q :: q in m && RankLess(RankOf(m, order[i].bc), RankOf(m, q)) ==>
              LowerMatches(m, q, mismatches) == {}
  {
    forall q | q in m && RankLess(RankOf(m, order[i].bc), RankOf(m, q))
      ensures LowerMatches(m, q, mismatches) == {}
    {
      var iq := PositionOf(m, order, q);
      LaterIsLower(m, order, iq, i);
      forall b | b in LowerMatches(m, q, mismatches)
        ensures false
      {
        var jb := PositionOf(m, order, b);
        LaterIsLower(m, order, iq, jb);
      }
    }
  }

  /** What holds of a pass once the barcodes at positions before `i` have been
      tried as merge targets. */
  ghost predicate Passing(r0: ByBarcode, order: seq<Rank>, i: int, mismatches: int,
                          r: ByBarcode, merged: bool, pivot: string)
  {
    && 0 <= i <= |order|
    && (!merged ==> r == r0)
    && (!merged ==> forall i', j :: 0 <= i' < i && i' < j < |order| ==> !Match(order[i'].bc, order[j].bc, mismatches))
    && (merged ==> 1 <= i && pivot == order[i - 1].bc && Absorbing(r0, order, i - 1, |order|, mismatches, r, true))
    && (merged ==> 1 <= i && PivotHits(r0, order, i - 1, |order|, mismatches, r))
    && (merged ==> forall i', j :: 0 <= i' < i - 1 && i' < j < |order| ==> !Match(order[i'].bc, order[j].bc, mismatches))
    && Pool(r) == Pool(r0)
  }

  /** Trying the barcode at position `i` keeps `Passing`. */
  lemma PassStep(r0: ByBarcode, order: seq<Rank>, i: int, mismatches: int,
                 r: ByBarcode, pivot: string, r': ByBarcode, any: bool)
    requires 0 <= i < |order|
    requires Passing(r0, order, i, mismatches, r, false, pivot)
    requires Absorbing(r0, order, i, |order|, mismatches, r', any) && Pool(r') == Pool(r0)
    requires PivotHits(r0, order, i, |order|, mismatches, r')
    ensures any ==> Passing(r0, order, i + 1, mismatches, r', true, order[i].bc)
    ensures !any ==> Passing(r0, order, i + 1, mismatches, r, false, pivot)
  {
  }

  /** A pass that ran to the end without merging leaves a merged state. */
  lemma PassUnmerged(r0: ByBarcode, order: seq<Rank>, mismatches: int, r: ByBarcode, pivot: string)
    requires Lists(order, r0)
    requires Passing(r0, order, |order|, mismatches, r, false, pivot)
    ensures r == r0 && Merged(r0, mismatches)
  {
    NothingLeftIsMerged(r0, order, mismatches);
  }

  /** A pass that merged did so into the highest-ranked barcode with a
      lower-ranked match, and removed exactly those matches. */
  lemma PassMerged(r0: ByBarcode, order: seq<Rank>, i: int, mismatches: int, r: ByBarcode, pivot: string)
    requires Lists(order, r0) && StrictlyOrdered(order, true)
    requires Passing(r0, order, i, mismatches, r, true, pivot)
    ensures pivot in r0 && pivot in r && r0[pivot] <= r[pivot]
    ensures LowerMatches(r0, pivot, mismatches) != {}
    ensures r.Keys == r0.Keys - LowerMatches(r0, pivot, mismatches)
    ensures forall b :: b in r && b != pivot ==> r[b] == r0[b]
    ensures forall q :: q in r0 && RankLess(RankOf(r0, pivot), RankOf(r0, q)) ==>
              LowerMatches(r0, q, mismatches) == {}
  {
    PivotIsHighest(r0, order, i - 1, mismatches, r);
  }

  /** All barcodes of `m` ranked by descending `(len(hits), barcode)`. */
  ghost function Ranking(m: ByBarcode): seq<Rank>
  {
    SortedRanks(RanksOf(m, m.Keys), true)
  }

  /** `order` is the ranking of `m`, which lists each barcode once. */
  ghost predicate Ranked(order: seq<Rank>, m: ByBarcode)
  {
    Lists(order, m) && StrictlyOrdered(order, true) && order == Ranking(m)
  }

  /** The first barcode from position `i` of `order` on that has a matching
      barcode ranked below it. */
  function FirstPivot(m: ByBarcode, order: seq<Rank>, i: nat, mismatches: int): Option<string>
    decreases |order| - i
  {
    if i >= |order| then None
    else if order[i].bc in m && LowerMatches(m, order[i].bc, mismatches) != {} then Some(order[i].bc)
    else FirstPivot(m, order, i + 1, mismatches)
  }

  /** The barcode a pass of phase 2 merges into, if it merges at all: the
      highest-ranked barcode with a lower-ranked match. */
  ghost function PivotOf(m: ByBarcode, mismatches: int): Option<string>
  {
    FirstPivot(m, Ranking(m), 0, mismatches)
  }

  /** A merging pass into `p` as a value: its lower-ranked matches go, and
      their hits follow its own, in ranking order. */
  ghost function Absorbed(m: ByBarcode, p: string, mismatches: int): ByBarcode
    requires p in m
  {
    var lower := LowerMatches(m, p, mismatches);
    (m - lower)[p := m[p] + HitsIn(m, Ranking(m), 0, |Ranking(m)|, lower)]
  }

  /** A merging pass removes at least one barcode. */
  lemma AbsorbedShrinks(m: ByBarcode, p: string, mismatches: int)
    requires p in m && LowerMatches(m, p, mismatches) != {}
    ensures p !in LowerMatches(m, p, mismatches)
    ensures Absorbed(m, p, mismatches).Keys == m.Keys - LowerMatches(m, p, mismatches)
    ensures |Absorbed(m, p, mismatches)| < |m|
  {
    var lower := LowerMatches(m, p, mismatches);
    PrecedesIrreflexive(RankOf(m, p), false);
    assert p !in lower;
    assert lower <= m.Keys;
    assert |m.Keys - lower| == |m.Keys| - |lower|;
  }

  /** Phase 2 as a value: passes into the pivot until there is none. */
  ghost function Phase2Of(m: ByBarcode, mismatches: int): ByBarcode
    decreases |m|
  {
    match PivotOf(m, mismatches)
    case None => m
    case Some(p) =>
      if p in m && LowerMatches(m, p, mismatches) != {} then
        AbsorbedShrinks(m, p, mismatches);
        Phase2Of(Absorbed(m, p, mismatches), mismatches)
      else m
  }

  /** The bucket `_merge_similar_randomers` leaves: phase 2 after phase 1. */
  ghost function Merging(m: ByBarcode, mismatches: int): ByBarcode
  {
    Phase2Of(Phase1Of(m, mismatches), mismatches)
  }

  /** With no lower-ranked match from position `i` on, no pivot is found. */
  lemma {:induction false} FirstPivotNone(m: ByBarcode, order: seq<Rank>, i: nat, mismatches: int)
    requires forall j :: i <= j < |order| && order[j].bc in m ==> LowerMatches(m, order[j].bc, mismatches) == {}
    ensures FirstPivot(m, order, i, mismatches) == None
    decreases |order| - i
  {
    if i < |order| {
      FirstPivotNone(m, order, i + 1, mismatches);
    }
  }

  /** The first position with a lower-ranked match holds the pivot. */
  lemma {:induction false} FirstPivotAt(m: ByBarcode, order: seq<Rank>, i: nat, ip: nat, mismatches: int)
    requires i <= ip < |order| && order[ip].bc in m && LowerMatches(m, order[ip].bc, mismatches) != {}
    requires forall j :: i <= j < ip && order[j].bc in m ==> LowerMatches(m, order[j].bc, mismatches) == {}
    ensures FirstPivot(m, order, i, mismatches) == Some(order[ip].bc)
    decreases ip - i
  {
    if i < ip {
      FirstPivotAt(m, order, i + 1, ip, mismatches);
    }
  }

  /** A merged bucket has no pivot, so phase 2 leaves it alone. */
  lemma MergedNoPivot(m: ByBarcode, mismatches: int)
    requires Merged(m, mismatches)
    ensures PivotOf(m, mismatches) == None
    ensures Phase2Of(m, mismatches) == m
  {
    forall p | p in m
      ensures LowerMatches(m, p, mismatches) == {}
    {
      PrecedesIrreflexive(RankOf(m, p), false);
      assert p !in LowerMatches(m, p, mismatches);
    }
    FirstPivotNone(m, Ranking(m), 0, mismatches);
  }

  /** Along the ranking, the pivot's lower-ranked matches are the matches
      listed after it. */
  lemma PivotGathered(m: ByBarcode, order: seq<Rank>, ip: int, mismatches: int)
    requires Lists(order, m) && StrictlyOrdered(order, true) && 0 <= ip < |order|
    ensures HitsIn(m, order, 0, |order|, LowerMatches(m, order[ip].bc, mismatches))
            == HitsIn(m, order, ip + 1, |order|, Matching(m, order[ip].bc, mismatches))
  {
    var p := order[ip].bc;
    var lower := LowerMatches(m, p, mismatches);
    HitsInSplit(m, order, 0, ip + 1, |order|, lower);
    forall j | 0 <= j < ip + 1
      ensures order[j].bc !in lower
    {
      LaterIsLower(m, order, ip, j);
    }
    HitsInNone(m, order, 0, ip + 1, lower);
    forall j | ip + 1 <= j < |order|
      ensures order[j].bc in lower <==> order[j].bc in Matching(m, p, mismatches)
    {
      LaterIsLower(m, order, ip, j);
    }
    HitsInSame(m, order, ip + 1, |order|, lower, Matching(m, p, mismatches));
  }

  /** A pass that merged is one step of `Phase2Of`: it merged into `PivotOf`,
      leaving `Absorbed`. */
  lemma PassAbsorbed(r0: ByBarcode, order: seq<Rank>, i: int, mismatches: int, r: ByBarcode, pivot: string)
    requires Ranked(order, r0)
    requires Passing(r0, order, i, mismatches, r, true, pivot)
    ensures PivotOf(r0, mismatches) == Some(pivot)
    ensures r == Absorbed(r0, pivot, mismatches)
  {
    var ip := i - 1;
    assert Absorbing(r0, order, ip, |order|, mismatches, r, true);
    assert PivotHits(r0, order, ip, |order|, mismatches, r);
    PivotIsHighest(r0, order, ip, mismatches, r);
    PivotAbsorbed(r0, order, ip, mismatches, r);
  }

  /** The highest-ranked barcode with a lower-ranked match, having absorbed
      exactly those matches, is `PivotOf` and leaves `Absorbed`. */
  lemma PivotAbsorbed(m: ByBarcode, order: seq<Rank>, ip: int, mismatches: int, r: ByBarcode)
    requires Ranked(order, m) && 0 <= ip < |order|
    requires LowerMatches(m, order[ip].bc, mismatches) != {}
    requires forall q :: q in m && RankLess(RankOf(m, order[ip].bc), RankOf(m, q)) ==>
               LowerMatches(m, q, mismatches) == {}
    requires r.Keys == m.Keys - LowerMatches(m, order[ip].bc, mismatches)
    requires forall b :: b in r && b != order[ip].bc ==> r[b] == m[b]
    requires PivotHits(m, order, ip, |order|, mismatches, r)
    ensures PivotOf(m, mismatches) == Some(order[ip].bc)
    ensures r == Absorbed(m, order[ip].bc, mismatches)
  {
    PivotFirst(m, order, ip, mismatches);
    AbsorbedIs(m, order, ip, mismatches, r);
  }

  /** The highest-ranked barcode with a lower-ranked match is `PivotOf`. */
  lemma PivotFirst(m: ByBarcode, order: seq<Rank>, ip: int, mismatches: int)
    requires Ranked(order, m) && 0 <= ip < |order|
    requires LowerMatches(m, order[ip].bc, mismatches) != {}
    requires forall q :: q in m && RankLess(RankOf(m, order[ip].bc), RankOf(m, q)) ==>
               LowerMatches(m, q, mismatches) == {}
    ensures PivotOf(m, mismatches) == Some(order[ip].bc)
  {
    forall j | 0 <= j < ip && order[j].bc in m
      ensures LowerMatches(m, order[j].bc, mismatches) == {}
    {
      LaterIsLower(m, order, j, ip);
    }
    FirstPivotAt(m, order, 0, ip, mismatches);
  }

  /** The bucket a merging pass leaves is `Absorbed`: the pivot's matches are
      gone and their hits follow its own in ranking order. */
  lemma AbsorbedIs(m: ByBarcode, order: seq<Rank>, ip: int, mismatches: int, r: ByBarcode)
    requires Ranked(order, m) && 0 <= ip < |order|
    requires LowerMatches(m, order[ip].bc, mismatches) != {}
    requires r.Keys == m.Keys - LowerMatches(m, order[ip].bc, mismatches)
    requires forall b :: b in r && b != order[ip].bc ==> r[b] == m[b]
    requires PivotHits(m, order, ip, |order|, mismatches, r)
    ensures r == Absorbed(m, order[ip].bc, mismatches)
  {
    var p := order[ip].bc;
    PivotGathered(m, order, ip, mismatches);
    AbsorbedShrinks(m, p, mismatches);
    MergedInto(m, p, LowerMatches(m, p, mismatches), HitsIn(m, order, 0, |order|, LowerMatches(m, p, mismatches)), r);
  }

  /** A bucket that lost the barcodes `gone` and whose barcode `p` gained the
      hits `extra` after its own, all else equal. */
  lemma MergedInto(m: ByBarcode, p: string, gone: set<string>, extra: seq<Hit>, r: ByBarcode)
    requires p in m && p !in gone
    requires r.Keys == m.Keys - gone
    requires forall b :: b in r && b != p ==> r[b] == m[b]
    requires p in r && r[p] == m[p] + extra
    ensures r == (m - gone)[p := m[p] + extra]
  {
  }

  /** One pass of phase 2: ranks the barcodes by descending `(len(hits), barcode)`
      and merges into the first one that has matches among those ranked after
      it. Without any match the state is merged and left alone; otherwise the
      pivot is the highest-ranked barcode with a lower-ranked match, and exactly
      its lower-ranked matches hand it their hits. */
  method MergePass(r0: ByBarcode, mismatches: int) returns (r: ByBarcode, merged: bool, pivot: string)
    ensures Pool(r) == Pool(r0)
    ensures !merged ==> r == r0 && Merged(r0, mismatches)
    ensures merged ==> pivot in r0 && pivot in r && r0[pivot] <= r[pivot]
    ensures merged ==> LowerMatches(r0, pivot, mismatches) != {}
    ensures merged ==> r.Keys == r0.Keys - LowerMatches(r0, pivot, mismatches)
    ensures merged ==> forall b :: b in r && b != pivot ==> r[b] == r0[b]
    ensures merged ==> forall q :: q in r0 && RankLess(RankOf(r0, pivot), RankOf(r0, q)) ==>
                                     LowerMatches(r0, q, mismatches) == {}
    ensures merged ==> PivotOf(r0, mismatches) == Some(pivot) && r == Absorbed(r0, pivot, mismatches)
    ensures !merged ==> PivotOf(r0, mismatches) == None
  {
    var order := Sorted(RanksOf(r0, r0.Keys), true);
    SortedLists(r0, order);
    r, merged, pivot := r0, false, "";
    var i := 0;
    while i < |order| && !merged
      invariant Passing(r0, order, i, mismatches, r, merged, pivot)
    {
      var r', any := Absorb(r0, order, i, mismatches);
      PassStep(r0, order, i, mismatches, r, pivot, r', any);
      if any {
        r, merged, pivot := r', true, order[i].bc;
      }
      i := i + 1;
    }
    PassOutcome(r0, order, i, mismatches, r, merged, pivot);
  }

  /** What a finished pass established, in the terms of `MergePass`. */
  lemma PassOutcome(r0: ByBarcode, order: seq<Rank>, i: int, mismatches: int, r: ByBarcode, merged: bool, pivot: string)
    requires Ranked(order, r0)
    requires Passing(r0, order, i, mismatches, r, merged, pivot) && (merged || i == |order|)
    ensures !merged ==> r == r0 && Merged(r0, mismatches) && PivotOf(r0, mismatches) == None
    ensures merged ==> pivot in r0 && pivot in r && r0[pivot] <= r[pivot]
    ensures merged ==> LowerMatches(r0, pivot, mismatches) != {}
    ensures merged ==> r.Keys == r0.Keys - LowerMatches(r0, pivot, mismatches)
    ensures merged ==> forall b :: b in r && b != pivot ==> r[b] == r0[b]
    ensures merged ==> forall q :: q in r0 && RankLess(RankOf(r0, pivot), RankOf(r0, q)) ==>
                                     LowerMatches(r0, q, mismatches) == {}
    ensures merged ==> PivotOf(r0, mismatches) == Some(pivot) && r == Absorbed(r0, pivot, mismatches)
  {
    if merged {
      PassMerged(r0, order, i, mismatches, r, pivot);
      PassAbsorbed(r0, order, i, mismatches, r, pivot);
    } else {
      PassUnmerged(r0, order, mismatches, r, pivot);
      MergedNoPivot(r0, mismatches);
    }
  }

  /** Phase 2: passes until one finds nothing to merge. Each merging pass
      removes at least one barcode, so the loop ends. */
  method MergeMatching(m: ByBarcode, mismatches: int) returns (r: ByBarcode)
    ensures r.Keys <= m.Keys
    ensures Pool(r) == Pool(m)
    ensures forall b :: b in r ==> m[b] <= r[b]
    ensures Merged(r, mismatches)
    ensures Merged(m, mismatches) ==> r == m
    ensures r == Phase2Of(m, mismatches)
  {
    r := m;
    var merged := true;
    while merged
      invariant r.Keys <= m.Keys
      invariant Pool(r) == Pool(m)
      invariant forall b :: b in r ==> m[b] <= r[b]
      invariant !merged ==> Merged(r, mismatches)
      invariant Merged(m, mismatches) ==> r == m
      invariant Phase2Of(r, mismatches) == Phase2Of(m, mismatches)
      invariant !merged ==> Phase2Of(r, mismatches) == r
      decreases |r.Keys| + (if merged then 1 else 0)
    {
      var r0 := r;
      var pivot;
      r, merged, pivot := MergePass(r0, mismatches);
      PassKeepsPrefixes(m, r0, r, merged, pivot);
      if merged {
        var gone := LowerMatches(r0, pivot, mismatches);
        assert gone <= r0.Keys;
        assert |r.Keys| == |r0.Keys| - |gone|;
        assert !Merged(r0, mismatches) by {
          var b :| b in gone;
        }
        assert Phase2Of(r0, mismatches) == Phase2Of(r, mismatches);
      } else {
        MergedNoPivot(r0, mismatches);
      }
    }
  }

  /** Each barcode still starts with its hits of `m` after a pass. */
  lemma PassKeepsPrefixes(m: ByBarcode, r0: ByBarcode, r: ByBarcode, merged: bool, pivot: string)
    requires r0.Keys <= m.Keys && forall b :: b in r0 ==> m[b] <= r0[b]
    requires r.Keys <= r0.Keys
    requires !merged ==> r == r0
    requires merged ==> pivot in r0 && pivot in r && r0[pivot] <= r[pivot]
    requires merged ==> forall b :: b in r && b != pivot ==> r[b] == r0[b]
    ensures forall b :: b in r ==> m[b] <= r[b]
  {
    forall b | b in r
      ensures m[b] <= r[b]
    {
      assert m[b] <= r0[b] && r0[b] <= r[b];
      assert r[b][..|m[b]|] == r0[b][..|r0[b]|][..|m[b]|];
    }
  }

  /** What merging promises of the new bucket `r` made from `m`: barcodes only
      disappear, no hit is lost or created, every surviving barcode keeps its
      own hits first, no two remaining barcodes match, and a bucket that is
      already merged is left unchanged. */
  ghost predicate MergeOf(m: ByBarcode, r: ByBarcode, mismatches: int)
  {
    && r.Keys <= m.Keys
    && Pool(r) == Pool(m)
    && (forall b :: b in r ==> m[b] <= r[b])
    && Merged(r, mismatches)
    && (Merged(m, mismatches) ==> r == m)
    && r == Merging(m, mismatches)
  }

  /** `_merge_similar_randomers(by_bc, mismatches)`: the new `by_bc` (so a
      second call changes nothing). */
  method MergeSimilarRandomers(byBc: ByBarcode, mismatches: int) returns (r: ByBarcode)
    ensures MergeOf(byBc, r, mismatches)
  {
    var ambResolved, accepted := AssignAmbiguous(byBc, mismatches);
    r := MergeMatching(ambResolved, mismatches);
    MergeOfPhases(byBc, ambResolved, r, mismatches);
  }

  /** Phase 1 leading from `m` to `a` and phase 2 from `a` to `r` make `r` the
      merge of `m`. */
  lemma MergeOfPhases(m: ByBarcode, a: ByBarcode, r: ByBarcode, mismatches: int)
    requires a.Keys <= m.Keys && Pool(a) == Pool(m) && (forall b :: b in a ==> m[b] <= a[b])
    requires (Merged(m, mismatches) ==> a == m) && a == Phase1Of(m, mismatches)
    requires r.Keys <= a.Keys && Pool(r) == Pool(a) && (forall b :: b in r ==> a[b] <= r[b])
    requires Merged(r, mismatches) && (Merged(a, mismatches) ==> r == a) && r == Phase2Of(a, mismatches)
    ensures MergeOf(m, r, mismatches)
  {
    PrefixesCompose(m, a, r);
  }

  /** Keeping one's hits first is transitive. */
  lemma PrefixesCompose(m: ByBarcode, a: ByBarcode, r: ByBarcode)
    requires a.Keys <= m.Keys && (forall b :: b in a ==> m[b] <= a[b])
    requires r.Keys <= a.Keys && (forall b :: b in r ==> a[b] <= r[b])
    ensures forall b :: b in r ==> m[b] <= r[b]
  {
    forall b | b in r
      ensures m[b] <= r[b]
    {
      assert m[b] <= a[b] && a[b] <= r[b];
      assert r[b][..|m[b]|] == a[b][..|a[b]|][..|m[b]|];
    }
  }
}
