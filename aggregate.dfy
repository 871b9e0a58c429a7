/** The detection stage of a run: every (chrom, strand, cross-link position)
    bucket has its barcodes merged and is then collapsed twice, counting only
    uniquely mapped reads and counting reads mapped to at most `multimax`
    places; the per-position tables of one (chrom, strand) are summed key-wise. */
module Aggregate {
  import opened Types
  import opened Tables
  import opened Merge
  import opened Collapse
  import CollapseFacts

  // ---------------------------------------------------------------------------
  // Merging keeps hits well formed

  /** A hit is in the pool exactly when some barcode holds it. */
  lemma {:induction false} PoolHolds(m: ByBarcode, h: Hit)
    ensures h in Pool(m) <==> exists b :: b in m && h in m[b]
    decreases |m|
  {
    if |m| != 0 {
      var k := Pick(m.Keys);
      var rest := m - {k};
      assert |rest| == |m| - 1;
      PoolHolds(rest, h);
      assert Pool(m) == multiset(m[k]) + Pool(rest);
      if h in Pool(m) && h !in multiset(m[k]) {
        var b :| b in rest && h in rest[b];
        assert b in m && h in m[b];
      }
      if exists b :: b in m && h in m[b] {
        var b :| b in m && h in m[b];
        if b != k {
          assert b in rest && h in rest[b];
        }
      }
    }
  }

  /** Merging only moves hits between barcodes, so each stays well formed. */
  lemma MergeKeepsWellFormed(m: ByBarcode, r: ByBarcode)
    requires AllWellFormed(m) && Pool(r) == Pool(m)
    ensures AllWellFormed(r)
  {
    forall b | b in r
      ensures WellFormed(r[b])
    {
      forall h | h in r[b]
        ensures h.numMapped >= 1 && h.readLen >= 1
      {
        PoolHolds(r, h);
        PoolHolds(m, h);
        var b' :| b' in m && h in m[b'];
      }
    }
  }

  // ---------------------------------------------------------------------------
  // What a (chrom, strand) reports

  /** Every bucket of the (chrom, strand) is well formed. */
  predicate BucketsWellFormed(byPos: map<int, ByBarcode>)
  {
    forall x :: x in byPos ==> AllWellFormed(byPos[x])
  }

  /** What each cross-link position reports at `p`. */
  ghost function ReportMap(byPos: map<int, ByBarcode>, groupBy: GroupBy, multimax: int, p: int): map<int, Counts>
    requires BucketsWellFormed(byPos)
  {
    map x | x in byPos :: CollapseAt(x, byPos[x], groupBy, multimax, p)
  }

  /** The sum over the cross-link positions of what each reports at `p`. */
  ghost function TotalAt(byPos: map<int, ByBarcode>, groupBy: GroupBy, multimax: int, p: int): Counts
    requires BucketsWellFormed(byPos)
  {
    SumMap(ReportMap(byPos, groupBy, multimax, p))
  }

  /** `t` holds, at every position, what the buckets of `byPos` report there. */
  ghost predicate Totals(t: Table, byPos: map<int, ByBarcode>, groupBy: GroupBy, multimax: int)
    requires BucketsWellFormed(byPos)
  {
    forall p :: Get(t, p) == TotalAt(byPos, groupBy, multimax, p)
  }

  /** A missing entry counts as zeros on both sides of a key-wise sum. */
  lemma GetAddAll(cur: Table, toAdd: Table, p: int)
    ensures Get(AddAll(cur, toAdd), p) == Tables.Plus(Get(cur, p), Get(toAdd, p))
  {
  }

  /** No bucket yet: an empty table. */
  lemma TotalsNone(groupBy: GroupBy, multimax: int)
    ensures Totals(map[], map[], groupBy, multimax)
  {
    forall p
      ensures Get(map[], p) == TotalAt(map[], groupBy, multimax, p)
    {
      SumMapEmpty(ReportMap(map[], groupBy, multimax, p));
    }
  }

  /** One more bucket adds what it reports to the total. */
  lemma TotalAtAdd(byPos: map<int, ByBarcode>, x: int, byBc: ByBarcode, groupBy: GroupBy, multimax: int, p: int)
    requires BucketsWellFormed(byPos) && AllWellFormed(byBc) && x !in byPos
    ensures BucketsWellFormed(byPos[x := byBc])
    ensures TotalAt(byPos[x := byBc], groupBy, multimax, p)
         == Tables.Plus(TotalAt(byPos, groupBy, multimax, p), CollapseAt(x, byBc, groupBy, multimax, p))
  {
    var m := ReportMap(byPos, groupBy, multimax, p);
    var v := CollapseAt(x, byBc, groupBy, multimax, p);
    ReportMapAdd(byPos, x, byBc, groupBy, multimax, p);
    SumMapAdd(m, x, v);
    PlusComm(v, SumMap(m));
  }

  /** The reports of one more bucket. */
  lemma ReportMapAdd(byPos: map<int, ByBarcode>, x: int, byBc: ByBarcode, groupBy: GroupBy, multimax: int, p: int)
    requires BucketsWellFormed(byPos) && AllWellFormed(byBc)
    ensures BucketsWellFormed(byPos[x := byBc])
    ensures ReportMap(byPos[x := byBc], groupBy, multimax, p)
         == ReportMap(byPos, groupBy, multimax, p)[x := CollapseAt(x, byBc, groupBy, multimax, p)]
  {
  }

  /** Adding the collapsed table of one more bucket. */
  lemma TotalsAdd(t: Table, c: Table, byPos: map<int, ByBarcode>, x: int, byBc: ByBarcode, groupBy: GroupBy, multimax: int)
    requires BucketsWellFormed(byPos) && AllWellFormed(byBc) && x !in byPos
    requires Totals(t, byPos, groupBy, multimax)
    requires forall p :: Get(c, p) == CollapseAt(x, byBc, groupBy, multimax, p)
    ensures BucketsWellFormed(byPos[x := byBc])
    ensures Totals(AddAll(t, c), byPos[x := byBc], groupBy, multimax)
  {
    var next := byPos[x := byBc];
    forall p
      ensures Get(AddAll(t, c), p) == TotalAt(next, groupBy, multimax, p)
    {
      TotalAtAdd(byPos, x, byBc, groupBy, multimax, p);
      GetAddAll(t, c, p);
    }
  }

  /** Each done bucket is the merge of its original. */
  ghost predicate MergedBuckets(byPos: map<int, ByBarcode>, merged: map<int, ByBarcode>, mismatches: int)
    requires merged.Keys <= byPos.Keys
  {
    forall x {:trigger MergeOf(byPos[x], merged[x], mismatches)} :: x in merged ==> MergeOf(byPos[x], merged[x], mismatches)
  }

  /** The two tables sum what the merged buckets report, and stay bounded. */
  ghost predicate Scored(merged: map<int, ByBarcode>, unique: Table, multi: Table, groupBy: GroupBy, multimax: int)
  {
    && BucketsWellFormed(merged)
    && Bounded(unique) && Bounded(multi)
    && Totals(unique, merged, groupBy, 1)
    && Totals(multi, merged, groupBy, multimax)
  }

  /** What the detection loop leaves for one (chrom, strand): `merged` holds
      every bucket after merging (`by_bc` is merged in place), and the two
      tables hold, at every position, the sum over the merged buckets of what
      `_collapse` reports there with `multimax` 1 and with `multimax`. */
  ghost predicate Detected(byPos: map<int, ByBarcode>, merged: map<int, ByBarcode>, unique: Table, multi: Table,
                           mismatches: int, groupBy: GroupBy, multimax: int)
  {
    && merged.Keys == byPos.Keys
    && MergedBuckets(byPos, merged, mismatches)
    && Scored(merged, unique, multi, groupBy, multimax)
  }

  /** Nothing scored yet. */
  lemma ScoredNone(groupBy: GroupBy, multimax: int)
    ensures Scored(map[], map[], map[], groupBy, multimax)
  {
    TotalsNone(groupBy, 1);
    TotalsNone(groupBy, multimax);
  }

  /** One more merged bucket. */
  lemma MergedAdd(byPos: map<int, ByBarcode>, merged: map<int, ByBarcode>, mismatches: int, x: int, byBc: ByBarcode)
    requires merged.Keys <= byPos.Keys && MergedBuckets(byPos, merged, mismatches)
    requires x in byPos && MergeOf(byPos[x], byBc, mismatches)
    ensures MergedBuckets(byPos, merged[x := byBc], mismatches)
  {
    var next := merged[x := byBc];
    forall y | y in next
      ensures MergeOf(byPos[y], next[y], mismatches)
    {
      if y != x {
        assert next[y] == merged[y];
        assert MergeOf(byPos[y], merged[y], mismatches);
      }
    }
  }

  /** One more scored bucket. */
  lemma ScoredAdd(merged: map<int, ByBarcode>, unique: Table, multi: Table, groupBy: GroupBy, multimax: int,
                  x: int, byBc: ByBarcode, u: Table, c: Table)
    requires Scored(merged, unique, multi, groupBy, multimax)
    requires x !in merged && AllWellFormed(byBc)
    requires Bounded(u) && forall p :: Get(u, p) == CollapseAt(x, byBc, groupBy, 1, p)
    requires Bounded(c) && forall p :: Get(c, p) == CollapseAt(x, byBc, groupBy, multimax, p)
    ensures Scored(merged[x := byBc], AddAll(unique, u), AddAll(multi, c), groupBy, multimax)
  {
    TotalsAdd(unique, u, merged, x, byBc, groupBy, 1);
    TotalsAdd(multi, c, merged, x, byBc, groupBy, multimax);
    AddAllBounded(unique, u);
    AddAllBounded(multi, c);
  }

  /** One cross-link position: `_merge_similar_randomers(by_bc, mismatches)`,
      then `_collapse` of the merged bucket with `multimax` 1 and with
      `multimax`. */
  method DetectPosition(x: int, byBc: ByBarcode, mismatches: int, groupBy: GroupBy, multimax: int)
    returns (merged: ByBarcode, u: Table, c: Table)
    requires AllWellFormed(byBc)
    ensures MergeOf(byBc, merged, mismatches) && AllWellFormed(merged)
    ensures Bounded(u) && forall p :: Get(u, p) == CollapseAt(x, merged, groupBy, 1, p)
    ensures Bounded(c) && forall p :: Get(c, p) == CollapseAt(x, merged, groupBy, multimax, p)
  {
    merged := MergeSimilarRandomers(byBc, mismatches);
    MergeKeepsWellFormed(byBc, merged);
    u := Collapse.Collapse(x, merged, groupBy, 1);
    c := Collapse.Collapse(x, merged, groupBy, multimax);
  }

  /** One pass of the loop over cross-link positions: the bucket at `x` is
      merged and both of its collapsed tables are added in. */
  method DetectStep(byPos: map<int, ByBarcode>, merged: map<int, ByBarcode>, unique: Table, multi: Table,
                    x: int, mismatches: int, groupBy: GroupBy, multimax: int)
    returns (merged': map<int, ByBarcode>, unique': Table, multi': Table)
    requires BucketsWellFormed(byPos) && x in byPos && x !in merged
    requires merged.Keys <= byPos.Keys && MergedBuckets(byPos, merged, mismatches)
    requires Scored(merged, unique, multi, groupBy, multimax)
    ensures merged'.Keys == merged.Keys + {x}
    ensures MergedBuckets(byPos, merged', mismatches)
    ensures Scored(merged', unique', multi', groupBy, multimax)
  {
    var byBc, u, c := DetectPosition(x, byPos[x], mismatches, groupBy, multimax);
    MergedAdd(byPos, merged, mismatches, x, byBc);
    ScoredAdd(merged, unique, multi, groupBy, multimax, x, byBc, u, c);
    unique' := Update(unique, u);
    multi' := Update(multi, c);
    merged' := merged[x := byBc];
  }

  /** The body of `run`'s loop over (chrom, strand): for every cross-link
      position, merge its barcodes, then add what `_collapse` reports into
      `unique_by_pos` (`multimax` 1) and `multi_by_pos` (`multimax`). */
  method DetectBucket(byPos: map<int, ByBarcode>, mismatches: int, groupBy: GroupBy, multimax: int)
    returns (merged: map<int, ByBarcode>, unique: Table, multi: Table)
    requires BucketsWellFormed(byPos)
    ensures Detected(byPos, merged, unique, multi, mismatches, groupBy, multimax)
  {
    merged, unique, multi := map[], map[], map[];
    var todo := byPos.Keys;
    ScoredNone(groupBy, multimax);
    while todo != {}
      invariant todo <= byPos.Keys && merged.Keys == byPos.Keys - todo
      invariant MergedBuckets(byPos, merged, mismatches)
      invariant Scored(merged, unique, multi, groupBy, multimax)
      decreases todo
    {
      ghost var w := Pick(todo);
      assert w in todo;
      var x :| x in todo;
      merged, unique, multi := DetectStep(byPos, merged, unique, multi, x, mismatches, groupBy, multimax);
      todo := todo - {x};
    }
  }

  /** Summed over the cross-link positions, `multimax` 1 still reports no
      more reads than a larger `multimax`. */
  lemma TotalAtMono(byPos: map<int, ByBarcode>, groupBy: GroupBy, multimax: int, p: int)
    requires BucketsWellFormed(byPos) && multimax >= 1
    ensures TotalAt(byPos, groupBy, 1, p).readCount <= TotalAt(byPos, groupBy, multimax, p).readCount
  {
    var m1 := ReportMap(byPos, groupBy, 1, p);
    var m2 := ReportMap(byPos, groupBy, multimax, p);
    forall x | x in m1
      ensures m1[x].readCount <= m2[x].readCount
    {
      CollapseFacts.CollapseAtMono(x, byPos[x], groupBy, multimax, p);
    }
    SumMapReadsMono(m1, m2);
  }

  /** Every uniquely mapped read is also mapped to at most `multimax` places:
      the unique table holds no more reads than the multi table at any
      position, and has no position the multi table lacks. */
  lemma UniqueWithinMulti(byPos: map<int, ByBarcode>, merged: map<int, ByBarcode>, unique: Table, multi: Table,
                          mismatches: int, groupBy: GroupBy, multimax: int)
    requires multimax >= 1
    requires Detected(byPos, merged, unique, multi, mismatches, groupBy, multimax)
    ensures forall p :: Get(unique, p).readCount <= Get(multi, p).readCount
    ensures unique.Keys <= multi.Keys
  {
    forall p
      ensures Get(unique, p).readCount <= Get(multi, p).readCount
    {
      TotalAtMono(merged, groupBy, multimax, p);
    }
    forall p | p in unique
      ensures p in multi
    {
      assert Get(unique, p).readCount >= 1;
      assert Get(multi, p).readCount >= 1;
    }
  }

  /** `run` after the alignment file has been processed into `grouped`: every
      (chrom, strand) is detected as `DetectBucket` describes; `unique` and
      `multi` are the dictionaries saved as BED files. */
  method Detect(grouped: Grouped, mismatches: int, groupBy: GroupBy, multimax: int)
    returns (merged: Grouped, unique: map<ChromStrand, Table>, multi: map<ChromStrand, Table>)
    requires forall cs :: cs in grouped ==> BucketsWellFormed(grouped[cs])
    ensures merged.Keys == unique.Keys == multi.Keys == grouped.Keys
    ensures forall cs :: cs in grouped ==>
              Detected(grouped[cs], merged[cs], unique[cs], multi[cs], mismatches, groupBy, multimax)
  {
    merged, unique, multi := map[], map[], map[];
    var todo := grouped.Keys;
    while todo != {}
      invariant todo <= grouped.Keys
      invariant merged.Keys == unique.Keys == multi.Keys == grouped.Keys - todo
      invariant forall cs :: cs in merged ==>
                  Detected(grouped[cs], merged[cs], unique[cs], multi[cs], mismatches, groupBy, multimax)
      decreases todo
    {
      ghost var w := Pick(todo);
      assert w in todo;
      var cs :| cs in todo;
      var byPos, u, m := DetectBucket(grouped[cs], mismatches, groupBy, multimax);
      merged, unique, multi := merged[cs := byPos], unique[cs := u], multi[cs := m];
      todo := todo - {cs};
    }
  }
}
