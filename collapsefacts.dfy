/** What the collapsed scores mean: read counts, the cDNA weight of a
    second-start group, and the single output key of grouping by start. */
module CollapseFacts {
  import opened Types
  import opened Tables
  import opened Collapse

  // ---------------------------------------------------------------------------
  // Read counts

  /** The number of hits of `hs` that are eligible and report at `p`. */
  function ReadsAt(xlink: int, hs: seq<Hit>, groupBy: GroupBy, multimax: int, p: int): nat
  {
    if |hs| == 0 then 0
    else ReadsAt(xlink, hs[..|hs| - 1], groupBy, multimax, p)
         + (if Eligible(hs[|hs| - 1], multimax) && ReportPos(xlink, hs[|hs| - 1], groupBy) == p then 1 else 0)
  }

  lemma {:induction false} SumOfReads(xlink: int, hs: seq<Hit>, all: seq<Hit>, groupBy: GroupBy, multimax: int, p: int)
    requires WellFormed(all)
    requires forall h :: h in hs ==> h in all
    ensures SumOf(hs, Share(xlink, all, groupBy, multimax, p)).readCount == ReadsAt(xlink, hs, groupBy, multimax, p)
  {
    if |hs| != 0 {
      var init := hs[..|hs| - 1];
      assert forall h :: h in init ==> h in hs;
      SumOfReads(xlink, init, all, groupBy, multimax, p);
      assert hs[|hs| - 1] in all;
    }
  }

  /** Each eligible hit adds exactly one read, at the position it reports;
      ineligible hits add none. */
  lemma BarcodeReads(xlink: int, hits: seq<Hit>, groupBy: GroupBy, multimax: int, p: int)
    requires WellFormed(hits)
    ensures BarcodeAt(xlink, hits, groupBy, multimax, p).readCount == ReadsAt(xlink, hits, groupBy, multimax, p)
  {
    SumOfReads(xlink, hits, hits, groupBy, multimax, p);
  }

  /** Counting only uniquely mapped reads never counts more reads. */
  lemma {:induction false} ReadsAtMono(xlink: int, hs: seq<Hit>, groupBy: GroupBy, multimax: int, p: int)
    requires multimax >= 1
    ensures ReadsAt(xlink, hs, groupBy, 1, p) <= ReadsAt(xlink, hs, groupBy, multimax, p)
  {
    if |hs| != 0 {
      ReadsAtMono(xlink, hs[..|hs| - 1], groupBy, multimax, p);
    }
  }

  /** `_collapse` with `multimax` 1 reports no more reads at any position than
      with a larger `multimax`. */
  lemma CollapseAtMono(xlink: int, byBc: ByBarcode, groupBy: GroupBy, multimax: int, p: int)
    requires AllWellFormed(byBc) && multimax >= 1
    ensures CollapseAt(xlink, byBc, groupBy, 1, p).readCount <= CollapseAt(xlink, byBc, groupBy, multimax, p).readCount
  {
    var m1 := DoneMap(xlink, byBc, byBc.Keys, groupBy, 1, p);
    var m2 := DoneMap(xlink, byBc, byBc.Keys, groupBy, multimax, p);
    forall b | b in m1
      ensures m1[b].readCount <= m2[b].readCount
    {
      BarcodeReads(xlink, byBc[b], groupBy, 1, p);
      BarcodeReads(xlink, byBc[b], groupBy, multimax, p);
      ReadsAtMono(xlink, byBc[b], groupBy, multimax, p);
    }
    SumMapReadsMono(m1, m2);
  }

  // ---------------------------------------------------------------------------
  // Grouping by start

  lemma {:induction false} SumOfElsewhere(xlink: int, hs: seq<Hit>, all: seq<Hit>, multimax: int, p: int)
    requires WellFormed(all) && p != xlink
    ensures SumOf(hs, Share(xlink, all, Start, multimax, p)) == Zero
  {
    if |hs| != 0 {
      SumOfElsewhere(xlink, hs[..|hs| - 1], all, multimax, p);
      assert Share(xlink, all, Start, multimax, p)(hs[|hs| - 1]) == Zero;
      PlusZero();
    }
  }

  /** With `group_by = 'start'` nothing is scored away from the cross-link. */
  lemma StartElsewhere(xlink: int, byBc: ByBarcode, multimax: int, p: int)
    requires AllWellFormed(byBc) && p != xlink
    ensures CollapseAt(xlink, byBc, Start, multimax, p) == Zero
  {
    var m := DoneMap(xlink, byBc, byBc.Keys, Start, multimax, p);
    forall b | b in m
      ensures m[b] == Zero
    {
      SumOfElsewhere(xlink, byBc[b], byBc[b], multimax, p);
    }
    SumMapZeros(m);
  }

  /** So a table `_collapse` returns for `group_by = 'start'` has no key but
      the cross-link position. */
  lemma StartOnlyKey(xlink: int, byBc: ByBarcode, multimax: int, counts: Table)
    requires AllWellFormed(byBc) && Bounded(counts)
    requires forall p :: Get(counts, p) == CollapseAt(xlink, byBc, Start, multimax, p)
    ensures counts.Keys <= {xlink}
  {
    forall p | p in counts
      ensures p == xlink
    {
      if p != xlink {
        StartElsewhere(xlink, byBc, multimax, p);
      }
    }
  }

  // ---------------------------------------------------------------------------
  // cDNA weight of a second-start group (grouping by start)

  /** Some hit of `hs` is eligible when their eligible length is positive. */
  lemma {:induction false} EligibleWitness(hs: seq<Hit>, multimax: int) returns (h: Hit)
    requires EligibleLength(hs, multimax) > 0
    ensures h in hs && Eligible(h, multimax)
  {
    var last := hs[|hs| - 1];
    if Eligible(last, multimax) {
      h := last;
    } else {
      h := EligibleWitness(hs[..|hs| - 1], multimax);
      assert hs == hs[..|hs| - 1] + [last];
    }
  }

  /** The second starts of the eligible hits. */
  function EligibleStarts(hits: seq<Hit>, multimax: int): set<int>
  {
    set h | h in hits && Eligible(h, multimax) :: h.secondStart
  }

  /** A group has positive eligible length exactly when one of its hits is eligible. */
  lemma GroupLenPositive(hits: seq<Hit>, ss: int, multimax: int)
    requires WellFormed(hits)
    ensures GroupLen(hits, ss, multimax) > 0 <==> ss in EligibleStarts(hits, multimax)
  {
    if GroupLen(hits, ss, multimax) > 0 {
      var h := EligibleWitness(Filter(hits, ss), multimax);
      assert h in hits && h.secondStart == ss;
    }
    if ss in EligibleStarts(hits, multimax) {
      var h :| h in hits && Eligible(h, multimax) && h.secondStart == ss;
      GroupLenCovers(hits, h, multimax);
    }
  }

  /** `sum(read_len / num_mapped)` over the eligible hits of `hs`. */
  function NmLength(hs: seq<Hit>, multimax: int): real
    requires WellFormed(hs)
  {
    if |hs| == 0 then 0.0
    else NmLength(hs[..|hs| - 1], multimax)
         + (if Eligible(hs[|hs| - 1], multimax) then hs[|hs| - 1].readLen as real / hs[|hs| - 1].numMapped as real else 0.0)
  }

  lemma ShareOfLength(r: real, n: real)
    requires r >= 0.0 && n >= 1.0
    ensures 0.0 <= r / n <= r
    ensures n == 1.0 ==> r / n == r
  {
  }

  /** Each eligible hit counts `read_len / num_mapped <= read_len`, the whole
      of it when it has a single alignment. */
  lemma {:induction false} NmLengthBound(hs: seq<Hit>, multimax: int)
    requires WellFormed(hs)
    ensures 0.0 <= NmLength(hs, multimax) <= EligibleLength(hs, multimax) as real
    ensures multimax == 1 ==> NmLength(hs, multimax) == EligibleLength(hs, multimax) as real
  {
    if |hs| != 0 {
      var init, x := hs[..|hs| - 1], hs[|hs| - 1];
      assert forall h :: h in init ==> h in hs;
      NmLengthBound(init, multimax);
      ShareOfLength(x.readLen as real, x.numMapped as real);
    }
  }

  /** `read_len / (num_mapped * len)` is `(read_len / num_mapped) / len`. */
  lemma WeightSplit(h: Hit, len: nat)
    requires h.numMapped >= 1 && len >= 1
    ensures Weight(h, len) == (h.readLen as real / h.numMapped as real) / len as real
  {
  }

  lemma DivSum(a: real, q: real, l: real)
    requires l >= 1.0
    ensures a / l + q / l == (a + q) / l
  {
  }

  /** The weights the eligible hits of `hs` get in a group of eligible length `len`. */
  function WeightSum(hs: seq<Hit>, len: nat, multimax: int): real
    requires WellFormed(hs) && len >= 1
  {
    if |hs| == 0 then 0.0
    else WeightSum(hs[..|hs| - 1], len, multimax)
         + (if Eligible(hs[|hs| - 1], multimax) then Weight(hs[|hs| - 1], len) else 0.0)
  }

  /** The weights add up to `NmLength(hs) / len`. */
  lemma {:induction false} WeightSumRatio(hs: seq<Hit>, len: nat, multimax: int)
    requires WellFormed(hs) && len >= 1
    ensures WeightSum(hs, len, multimax) == NmLength(hs, multimax) / len as real
  {
    if |hs| != 0 {
      var init, x := hs[..|hs| - 1], hs[|hs| - 1];
      assert forall h :: h in init ==> h in hs;
      WeightSumRatio(init, len, multimax);
      var a, w := NmLength(init, multimax), WeightSum(init, len, multimax);
      if Eligible(x, multimax) {
        var q := x.readLen as real / x.numMapped as real;
        assert WeightSum(hs, len, multimax) == w + Weight(x, len);
        assert NmLength(hs, multimax) == a + q;
        WeightSplit(x, len);
        DivSum(a, q, len as real);
      } else {
        assert WeightSum(hs, len, multimax) == w;
        assert NmLength(hs, multimax) == a;
      }
    }
  }

  /** One hit of the group adds its weight at the cross-link, or nothing when
      it is not eligible. */
  lemma ShareAtStart(xlink: int, x: Hit, all: seq<Hit>, multimax: int)
    requires WellFormed(all) && x in all
    ensures GroupLen(all, x.secondStart, multimax) >= 1 || !Eligible(x, multimax)
    ensures Eligible(x, multimax) ==>
              Share(xlink, all, Start, multimax, xlink)(x).cdna == Weight(x, GroupLen(all, x.secondStart, multimax))
    ensures !Eligible(x, multimax) ==> Share(xlink, all, Start, multimax, xlink)(x).cdna == 0.0
  {
    GroupLenCovers(all, x, multimax);
  }

  /** The group's hits `hs` add their weights at the cross-link; with no
      eligible length they add nothing. */
  lemma {:induction false} GroupCdna(xlink: int, hs: seq<Hit>, all: seq<Hit>, ss: int, multimax: int)
    requires WellFormed(all)
    requires forall h :: h in hs ==> h in all && h.secondStart == ss
    ensures WellFormed(hs)
    ensures GroupLen(all, ss, multimax) == 0 ==> SumOf(hs, Share(xlink, all, Start, multimax, xlink)).cdna == 0.0
    ensures GroupLen(all, ss, multimax) > 0 ==>
              SumOf(hs, Share(xlink, all, Start, multimax, xlink)).cdna == WeightSum(hs, GroupLen(all, ss, multimax), multimax)
  {
    if |hs| != 0 {
      var init, x := hs[..|hs| - 1], hs[|hs| - 1];
      assert forall h :: h in init ==> h in hs;
      GroupCdna(xlink, init, all, ss, multimax);
      var f := Share(xlink, all, Start, multimax, xlink);
      assert SumOf(hs, f).cdna == SumOf(init, f).cdna + f(x).cdna;
      assert x in all && x.secondStart == ss;
      ShareAtStart(xlink, x, all, multimax);
      var len := GroupLen(all, ss, multimax);
      if Eligible(x, multimax) {
        assert WeightSum(hs, len, multimax) == WeightSum(init, len, multimax) + Weight(x, len);
      } else {
        assert len > 0 ==> WeightSum(hs, len, multimax) == WeightSum(init, len, multimax);
      }
    }
  }

  /** `c / l` against `1`, for `l >= 1`. */
  lemma UnitBound(c: real, l: real)
    requires l >= 1.0 && 0.0 <= c <= l
    ensures 0.0 <= c / l <= 1.0
    ensures c == l ==> c / l == 1.0
  {
  }

  /** One group adds at most one cDNA, none without an eligible hit, and
      exactly one with one when `multimax` is 1. */
  lemma GroupCdnaTotal(xlink: int, hits: seq<Hit>, ss: int, multimax: int)
    requires WellFormed(hits)
    ensures var c := SumOf(Filter(hits, ss), Share(xlink, hits, Start, multimax, xlink)).cdna;
            0.0 <= c <= 1.0
            && (ss !in EligibleStarts(hits, multimax) ==> c == 0.0)
            && (ss in EligibleStarts(hits, multimax) && multimax == 1 ==> c == 1.0)
  {
    var g := Filter(hits, ss);
    GroupCdna(xlink, g, hits, ss, multimax);
    GroupLenPositive(hits, ss, multimax);
    NmLengthBound(g, multimax);
    if GroupLen(hits, ss, multimax) > 0 {
      WeightSumRatio(g, GroupLen(hits, ss, multimax), multimax);
      UnitBound(NmLength(g, multimax), GroupLen(hits, ss, multimax) as real);
    }
  }

  /** Counting an eligible second start among `starts + {ss}`. */
  lemma StartsCount(starts: set<int>, ss: int, e: set<int>)
    requires ss !in starts
    ensures |(starts + {ss}) * e| == |starts * e| + (if ss in e then 1 else 0)
  {
    if ss in e {
      assert (starts + {ss}) * e == starts * e + {ss};
    } else {
      assert (starts + {ss}) * e == starts * e;
    }
  }

  /** The groups of `starts` add at most one cDNA per eligible second start
      among them, and exactly one each when `multimax` is 1. */
  lemma {:induction false} StartsCdna(xlink: int, hits: seq<Hit>, starts: set<int>, multimax: int)
    requires WellFormed(hits)
    ensures var c := SumOf(FilterIn(hits, starts), Share(xlink, hits, Start, multimax, xlink)).cdna;
            var k := |starts * EligibleStarts(hits, multimax)| as real;
            0.0 <= c <= k && (multimax == 1 ==> c == k)
    decreases starts
  {
    var f := Share(xlink, hits, Start, multimax, xlink);
    var e := EligibleStarts(hits, multimax);
    if starts == {} {
      FilterInNone(hits);
      assert starts * e == {};
    } else {
      var ss := Pick(starts);
      var rest := starts - {ss};
      assert rest + {ss} == starts;
      StartsCdna(xlink, hits, rest, multimax);
      SumOfSplit(hits, rest, ss, f);
      GroupCdnaTotal(xlink, hits, ss, multimax);
      StartsCount(rest, ss, e);
    }
  }

  /** With `group_by = 'start'`, a barcode adds at the cross-link at most one
      cDNA per second start that has an eligible hit, and exactly one per such
      second start when `multimax` is 1: every (barcode, second start) pair
      stands for one cDNA molecule. */
  lemma OneCdnaPerStart(xlink: int, hits: seq<Hit>, multimax: int)
    requires WellFormed(hits)
    ensures var c := BarcodeAt(xlink, hits, Start, multimax, xlink).cdna;
            var k := |EligibleStarts(hits, multimax)| as real;
            0.0 <= c <= k && (multimax == 1 ==> c == k)
  {
    var all := SecondStarts(hits);
    SecondStartsExact(hits);
    StartsCdna(xlink, hits, all, multimax);
    FilterInEvery(hits, all);
    assert all * EligibleStarts(hits, multimax) == EligibleStarts(hits, multimax);
  }
}
