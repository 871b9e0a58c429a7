/** Collapsing the merged barcodes of one cross-link position into per-position
    scores: every eligible hit adds its share of one cDNA and one read. */
module Collapse {
  import opened Types
  import opened Tables

  // ---------------------------------------------------------------------------
  // What one hit contributes

  /** `(xlink_pos, middle_pos, end_pos)[gi]`. */
  function ReportPos(xlink: int, h: Hit, groupBy: GroupBy): int
  {
    match groupBy
    case Start => xlink
    case Middle => h.middlePos
    case End => h.endPos
  }

  /** Hits mapped to more than `multimax` places are skipped. */
  predicate Eligible(h: Hit, multimax: int)
  {
    h.numMapped <= multimax
  }

  /** What the weights need of every hit: at least one reported alignment and
      a non-empty read (otherwise the source divides by zero). */
  predicate WellFormed(hits: seq<Hit>)
  {
    forall h :: h in hits ==> h.numMapped >= 1 && h.readLen >= 1
  }

  /** The hits of one second-start group, in their original order. */
  function Filter(hits: seq<Hit>, ss: int): (g: seq<Hit>)
    ensures forall h :: h in g ==> h in hits && h.secondStart == ss
  {
    if |hits| == 0 then []
    else Filter(hits[..|hits| - 1], ss) + (if hits[|hits| - 1].secondStart == ss then [hits[|hits| - 1]] else [])
  }

  /** `sum([i[2] for i in group if i[3] <= multimax])`. */
  function EligibleLength(hits: seq<Hit>, multimax: int): nat
  {
    if |hits| == 0 then 0
    else EligibleLength(hits[..|hits| - 1], multimax)
         + (if Eligible(hits[|hits| - 1], multimax) then hits[|hits| - 1].readLen else 0)
  }

  /** The eligible read length of the group with second start `ss` among `all`. */
  function GroupLen(all: seq<Hit>, ss: int, multimax: int): nat
  {
    EligibleLength(Filter(all, ss), multimax)
  }

  /** An eligible hit's own length is part of its group's eligible length. */
  lemma {:induction false} GroupLenCovers(all: seq<Hit>, h: Hit, multimax: int)
    requires h in all
    ensures Eligible(h, multimax) ==> GroupLen(all, h.secondStart, multimax) >= h.readLen
  {
    var n := |all|;
    if all[n - 1] == h {
      assert Filter(all, h.secondStart) == Filter(all[..n - 1], h.secondStart) + [h];
    } else {
      assert h in all[..n - 1] by {
        assert all == all[..n - 1] + [all[n - 1]];
      }
      GroupLenCovers(all[..n - 1], h, multimax);
      var ss := h.secondStart;
      if all[n - 1].secondStart == ss {
        var g := Filter(all[..n - 1], ss);
        assert Filter(all, ss) == g + [all[n - 1]];
        assert (g + [all[n - 1]])[..|g|] == g;
      } else {
        assert Filter(all, ss) == Filter(all[..n - 1], ss) + [];
        assert Filter(all[..n - 1], ss) + [] == Filter(all[..n - 1], ss);
      }
    }
  }

  /** `read_len / (num_mapped * sum_len_per_barcode)`. */
  function Weight(h: Hit, sumLen: nat): real
    requires h.numMapped >= 1 && sumLen >= 1
  {
    h.readLen as real / (h.numMapped as real * sumLen as real)
  }

  /** The contribution of hit `h` (one of `all`) at position `p`. */
  function Contribution(xlink: int, h: Hit, all: seq<Hit>, groupBy: GroupBy, multimax: int, p: int): Counts
    requires h in all && WellFormed(all)
  {
    if Eligible(h, multimax) && ReportPos(xlink, h, groupBy) == p then
      GroupLenCovers(all, h, multimax);
      Counts(Weight(h, GroupLen(all, h.secondStart, multimax)), 1)
    else Zero
  }

  /** The sum of `f` over the hits `hs`, taken in order. */
  function SumOf(hs: seq<Hit>, f: Hit -> Counts): Counts
  {
    if |hs| == 0 then Zero
    else Tables.Plus(SumOf(hs[..|hs| - 1], f), f(hs[|hs| - 1]))
  }

  /** The contribution at `p` of each hit of the barcode's hits `all`. */
  function Share(xlink: int, all: seq<Hit>, groupBy: GroupBy, multimax: int, p: int): Hit -> Counts
    requires WellFormed(all)
  {
    h => if h in all then Contribution(xlink, h, all, groupBy, multimax, p) else Zero
  }

  /** What one barcode's hits add at `p`. */
  function BarcodeAt(xlink: int, hits: seq<Hit>, groupBy: GroupBy, multimax: int, p: int): Counts
    requires WellFormed(hits)
  {
    SumOf(hits, Share(xlink, hits, groupBy, multimax, p))
  }

  /** All barcodes are well formed. */
  predicate AllWellFormed(byBc: ByBarcode)
  {
    forall b :: b in byBc ==> WellFormed(byBc[b])
  }

  /** What the barcodes of `done` add at `p`. */
  ghost function DoneAt(xlink: int, byBc: ByBarcode, done: set<string>, groupBy: GroupBy, multimax: int, p: int): Counts
    requires AllWellFormed(byBc)
  {
    SumMap(DoneMap(xlink, byBc, done, groupBy, multimax, p))
  }

  /** What each barcode of `done` adds at `p`. */
  ghost function DoneMap(xlink: int, byBc: ByBarcode, done: set<string>, groupBy: GroupBy, multimax: int, p: int): map<string, Counts>
    requires AllWellFormed(byBc)
  {
    map b | b in done && b in byBc :: BarcodeAt(xlink, byBc[b], groupBy, multimax, p)
  }

  /** The `[cDNA, reads]` entry `_collapse` reports at position `p`. */
  ghost function CollapseAt(xlink: int, byBc: ByBarcode, groupBy: GroupBy, multimax: int, p: int): Counts
    requires AllWellFormed(byBc)
  {
    DoneAt(xlink, byBc, byBc.Keys, groupBy, multimax, p)
  }

  // ---------------------------------------------------------------------------
  // Second-start groups

  /** The second starts occurring among `hits`. */
  function SecondStarts(hits: seq<Hit>): set<int>
  {
    if |hits| == 0 then {}
    else SecondStarts(hits[..|hits| - 1]) + {hits[|hits| - 1].secondStart}
  }

  /** Every hit's second start is among them, and nothing else is. */
  lemma {:induction false} SecondStartsExact(hits: seq<Hit>)
    ensures forall h :: h in hits ==> h.secondStart in SecondStarts(hits)
    ensures forall ss :: ss in SecondStarts(hits) ==> exists h :: h in hits && h.secondStart == ss
  {
    if |hits| > 0 {
      var init, last := hits[..|hits| - 1], hits[|hits| - 1];
      SecondStartsExact(init);
      assert hits == init + [last];
      forall ss | ss in SecondStarts(hits)
        ensures exists h :: h in hits && h.secondStart == ss
      {
        if ss != last.secondStart {
          assert ss in SecondStarts(init);
          var h :| h in init && h.secondStart == ss;
          assert h in hits;
        }
      }
    }
  }

  /** The hits whose second start lies in `starts`, in their original order. */
  function FilterIn(hits: seq<Hit>, starts: set<int>): (g: seq<Hit>)
    ensures forall h :: h in g ==> h in hits
  {
    if |hits| == 0 then []
    else FilterIn(hits[..|hits| - 1], starts) + (if hits[|hits| - 1].secondStart in starts then [hits[|hits| - 1]] else [])
  }

  /** A second start that occurs nowhere has an empty group. */
  lemma {:induction false} FilterAbsent(hits: seq<Hit>, ss: int)
    requires ss !in SecondStarts(hits)
    ensures Filter(hits, ss) == []
  {
    if |hits| > 0 {
      FilterAbsent(hits[..|hits| - 1], ss);
    }
  }

  /** Selecting by every second start that occurs keeps every hit. */
  lemma {:induction false} FilterInEvery(hits: seq<Hit>, starts: set<int>)
    requires SecondStarts(hits) <= starts
    ensures FilterIn(hits, starts) == hits
  {
    if |hits| > 0 {
      var n := |hits|;
      FilterInEvery(hits[..n - 1], starts);
      assert hits == hits[..n - 1] + [hits[n - 1]];
    }
  }

  /** Selecting by no second start keeps nothing. */
  lemma {:induction false} FilterInNone(hits: seq<Hit>)
    ensures FilterIn(hits, {}) == []
  {
    if |hits| > 0 {
      FilterInNone(hits[..|hits| - 1]);
    }
  }

  /** Adding the hits `hs + [x]` is adding `hs`, then `x`. */
  lemma SumOfAppend(hs: seq<Hit>, x: Hit, f: Hit -> Counts)
    ensures SumOf(hs + [x], f) == Tables.Plus(SumOf(hs, f), f(x))
  {
    assert (hs + [x])[..|hs|] == hs;
  }

  /** Adding nothing to nothing. */
  lemma PlusZero()
    ensures Tables.Plus(Zero, Zero) == Zero
  {
  }

  /** Adding nothing. */
  lemma PlusZeroRight(a: Counts)
    ensures Tables.Plus(a, Zero) == a
  {
  }

  /** Addition of counts is commutative. */
  lemma PlusComm(a: Counts, b: Counts)
    ensures Tables.Plus(a, b) == Tables.Plus(b, a)
  {
  }

  /** Addition of counts is associative. */
  lemma PlusAssoc(a: Counts, b: Counts, c: Counts)
    ensures Tables.Plus(Tables.Plus(a, b), c) == Tables.Plus(a, Tables.Plus(b, c))
  {
  }

  /** The groups of `starts + {ss}` add what the groups of `starts` add plus what
      the group `ss` adds: the order in which groups are visited is immaterial. */
  lemma {:induction false} SumOfSplit(hits: seq<Hit>, starts: set<int>, ss: int, f: Hit -> Counts)
    requires ss !in starts
    ensures SumOf(FilterIn(hits, starts + {ss}), f)
         == Tables.Plus(SumOf(FilterIn(hits, starts), f), SumOf(Filter(hits, ss), f))
    decreases |hits|
  {
    if |hits| > 0 {
      var n := |hits|;
      var init, x := hits[..n - 1], hits[n - 1];
      var k := x.secondStart;
      var a, b, c := FilterIn(init, starts + {ss}), FilterIn(init, starts), Filter(init, ss);
      var inL, inB := k in starts + {ss}, k in starts;
      assert inL == (inB || k == ss);
      assert FilterIn(hits, starts + {ss}) == a + (if inL then [x] else []);
      assert FilterIn(hits, starts) == b + (if inB then [x] else []);
      assert Filter(hits, ss) == c + (if k == ss then [x] else []);
      SumOfSplit(init, starts, ss, f);
      if k in starts {
        assert k in starts + {ss};
        assert FilterIn(hits, starts + {ss}) == a + [x];
        assert FilterIn(hits, starts) == b + [x];
        assert Filter(hits, ss) == c + [] == c;
        SumOfAppend(a, x, f);
        SumOfAppend(b, x, f);
        PlusSwap(SumOf(b, f), SumOf(c, f), f(x));
      } else if k == ss {
        assert k in starts + {ss};
        assert FilterIn(hits, starts + {ss}) == a + [x];
        assert FilterIn(hits, starts) == b + [] == b;
        assert Filter(hits, ss) == c + [x];
        SumOfAppend(a, x, f);
        SumOfAppend(c, x, f);
        PlusAssoc(SumOf(b, f), SumOf(c, f), f(x));
      } else {
        assert k !in starts + {ss};
        assert FilterIn(hits, starts + {ss}) == a + [] == a;
        assert FilterIn(hits, starts) == b + [] == b;
        assert Filter(hits, ss) == c + [] == c;
      }
    } else {
      assert FilterIn(hits, starts + {ss}) == [] && FilterIn(hits, starts) == [] && Filter(hits, ss) == [];
      PlusZero();
    }
  }

  /** `ss_groups.setdefault(read[4], []).append(read)` over all hits of one
      barcode: each second start that occurs gets its hits, in order. */
  method SeparateBySecondStart(hits: seq<Hit>) returns (groups: map<int, seq<Hit>>)
    ensures groups.Keys == SecondStarts(hits)
    ensures forall ss :: ss in groups ==> groups[ss] == Filter(hits, ss)
  {
    groups := map[];
    var i := 0;
    while i < |hits|
      invariant 0 <= i <= |hits|
      invariant groups.Keys == SecondStarts(hits[..i])
      invariant forall ss :: ss in groups ==> groups[ss] == Filter(hits[..i], ss)
    {
      ghost var before := groups;
      var h := hits[i];
      if h.secondStart in groups {
        groups := groups[h.secondStart := groups[h.secondStart] + [h]];
      } else {
        groups := groups[h.secondStart := [h]];
      }
      SeparateAt(hits, i, before, groups);
      i := i + 1;
    }
    assert hits[..i] == hits;
  }

  /** Filing `hits[i]` extends the groups of `hits[..i]` to those of `hits[..i + 1]`. */
  lemma SeparateAt(hits: seq<Hit>, i: int, groups: map<int, seq<Hit>>, groups': map<int, seq<Hit>>)
    requires 0 <= i < |hits|
    requires groups.Keys == SecondStarts(hits[..i])
    requires forall ss :: ss in groups ==> groups[ss] == Filter(hits[..i], ss)
    requires var h := hits[i];
             groups' == groups[h.secondStart := if h.secondStart in groups then groups[h.secondStart] + [h] else [h]]
    ensures groups'.Keys == SecondStarts(hits[..i + 1])
    ensures forall ss :: ss in groups' ==> groups'[ss] == Filter(hits[..i + 1], ss)
  {
    assert hits[..i + 1][..i] == hits[..i];
    SeparateKeys(groups, hits[..i + 1], groups');
    SeparateStep(groups, hits[..i + 1], groups');
  }

  /** Filing the last hit of `next` adds its second start to the keys. */
  lemma SeparateKeys(groups: map<int, seq<Hit>>, next: seq<Hit>, groups': map<int, seq<Hit>>)
    requires |next| > 0
    requires groups.Keys == SecondStarts(next[..|next| - 1])
    requires var h := next[|next| - 1];
             groups' == groups[h.secondStart := if h.secondStart in groups then groups[h.secondStart] + [h] else [h]]
    ensures groups'.Keys == SecondStarts(next)
  {
  }

  /** Appending the last hit of `next` to its second start's group keeps the
      groups exact. */
  lemma SeparateStep(groups: map<int, seq<Hit>>, next: seq<Hit>, groups': map<int, seq<Hit>>)
    requires |next| > 0
    requires groups.Keys == SecondStarts(next[..|next| - 1])
    requires forall ss :: ss in groups ==> groups[ss] == Filter(next[..|next| - 1], ss)
    requires var h := next[|next| - 1];
             groups' == groups[h.secondStart := if h.secondStart in groups then groups[h.secondStart] + [h] else [h]]
    ensures forall ss :: ss in groups' ==> groups'[ss] == Filter(next, ss)
  {
    var prefix, h := next[..|next| - 1], next[|next| - 1];
    forall ss | ss in groups'
      ensures groups'[ss] == Filter(next, ss)
    {
      assert Filter(next, ss) == Filter(prefix, ss) + (if h.secondStart == ss then [h] else []);
      if ss != h.secondStart {
        assert groups'[ss] == groups[ss] == Filter(prefix, ss);
        assert Filter(prefix, ss) + [] == Filter(prefix, ss);
      } else if ss !in groups {
        FilterAbsent(prefix, ss);
        assert groups'[ss] == [h] == [] + [h];
      }
    }
  }

  // ---------------------------------------------------------------------------
  // The counting loops

  /** Every weight lies in (0, 1]: the read is part of its group, and is
      reported at no fewer than one place. */
  lemma WeightInUnit(h: Hit, sumLen: nat)
    requires h.numMapped >= 1 && 1 <= h.readLen <= sumLen
    ensures 0.0 < Weight(h, sumLen) <= 1.0
  {
    var d := h.numMapped as real * sumLen as real;
    assert d >= sumLen as real by {
      assert h.numMapped as real >= 1.0;
    }
    assert Weight(h, sumLen) * d == h.readLen as real;
  }

  /** Adding a weight in (0, 1] and one read keeps every entry bounded. */
  lemma AddedBounded(t: Table, pos: int, w: real)
    requires Bounded(t) && 0.0 < w <= 1.0
    ensures Bounded(t[pos := Tables.Plus(Get(t, pos), Counts(w, 1))])
  {
  }

  /** An eligible hit adds its weight and one read at its reported position. */
  lemma CountedHit(counts: Table, xlink: int, h: Hit, hits: seq<Hit>, groupBy: GroupBy, multimax: int, w: real)
    requires WellFormed(hits) && h in hits && Eligible(h, multimax)
    requires GroupLen(hits, h.secondStart, multimax) >= 1
    requires w == Weight(h, GroupLen(hits, h.secondStart, multimax))
    ensures var pos := ReportPos(xlink, h, groupBy);
            forall p :: Get(counts[pos := Tables.Plus(Get(counts, pos), Counts(w, 1))], p)
                     == Tables.Plus(Get(counts, p), Contribution(xlink, h, hits, groupBy, multimax, p))
  {
    var pos := ReportPos(xlink, h, groupBy);
    var next := counts[pos := Tables.Plus(Get(counts, pos), Counts(w, 1))];
    forall p
      ensures Get(next, p) == Tables.Plus(Get(counts, p), Contribution(xlink, h, hits, groupBy, multimax, p))
    {
      if p != pos {
        assert Contribution(xlink, h, hits, groupBy, multimax, p) == Zero;
        PlusZeroRight(Get(counts, p));
      } else {
        assert Contribution(xlink, h, hits, groupBy, multimax, p) == Counts(w, 1);
      }
    }
  }

  /** Visiting one more hit of a group. */
  lemma AddHit(counts0: Table, counts: Table, xlink: int, hits: seq<Hit>, group: seq<Hit>, i: nat,
               groupBy: GroupBy, multimax: int, next: Table)
    requires WellFormed(hits) && i < |group|
    requires forall h :: h in group ==> h in hits
    requires forall p :: Get(counts, p) == Tables.Plus(Get(counts0, p), SumOf(group[..i], Share(xlink, hits, groupBy, multimax, p)))
    requires forall p :: Get(next, p) == Tables.Plus(Get(counts, p), Contribution(xlink, group[i], hits, groupBy, multimax, p))
    ensures forall p :: Get(next, p) == Tables.Plus(Get(counts0, p), SumOf(group[..i + 1], Share(xlink, hits, groupBy, multimax, p)))
  {
    assert group[..i + 1] == group[..i] + [group[i]];
    assert group[i] in hits;
    forall p
      ensures Get(next, p) == Tables.Plus(Get(counts0, p), SumOf(group[..i + 1], Share(xlink, hits, groupBy, multimax, p)))
    {
      var f := Share(xlink, hits, groupBy, multimax, p);
      SumOfAppend(group[..i], group[i], f);
      PlusAssoc(Get(counts0, p), SumOf(group[..i], f), f(group[i]));
    }
  }

  /** `counts` holds what `counts0` held plus what the hits `hs` add. */
  ghost predicate Partial(counts0: Table, counts: Table, xlink: int, hits: seq<Hit>, hs: seq<Hit>,
                          groupBy: GroupBy, multimax: int)
    requires WellFormed(hits)
  {
    forall p :: Get(counts, p) == Tables.Plus(Get(counts0, p), SumOf(hs, Share(xlink, hits, groupBy, multimax, p)))
  }

  /** The body of the loop over a group's hits, for hit `h`. */
  function Visit(counts: Table, xlink: int, h: Hit, sumLen: nat, groupBy: GroupBy, multimax: int): Table
    requires Eligible(h, multimax) ==> h.numMapped >= 1 && sumLen >= 1
  {
    if !Eligible(h, multimax) then counts
    else
      var pos := ReportPos(xlink, h, groupBy);
      counts[pos := Tables.Plus(Get(counts, pos), Counts(Weight(h, sumLen), 1))]
  }

  /** `counts0` after the loop body has visited the first `k` hits of the group
      with second start `ss`. */
  function VisitFirst(counts0: Table, xlink: int, hits: seq<Hit>, ss: int, k: nat, groupBy: GroupBy, multimax: int): Table
    requires WellFormed(hits) && k <= |Filter(hits, ss)|
  {
    if k == 0 then counts0
    else
      var h := Filter(hits, ss)[k - 1];
      assert h in Filter(hits, ss);
      GroupLenCovers(hits, h, multimax);
      Visit(VisitFirst(counts0, xlink, hits, ss, k - 1, groupBy, multimax), xlink, h, GroupLen(hits, ss, multimax), groupBy, multimax)
  }

  /** A hit mapped to more than `multimax` places adds nothing. */
  lemma SkipHit(counts0: Table, counts: Table, xlink: int, hits: seq<Hit>, group: seq<Hit>, i: nat,
                groupBy: GroupBy, multimax: int)
    requires WellFormed(hits) && i < |group| && group[i] in hits && !Eligible(group[i], multimax)
    requires forall h :: h in group ==> h in hits
    requires Partial(counts0, counts, xlink, hits, group[..i], groupBy, multimax)
    ensures Partial(counts0, counts, xlink, hits, group[..i + 1], groupBy, multimax)
  {
    assert group[..i + 1] == group[..i] + [group[i]];
    forall p
      ensures Get(counts, p) == Tables.Plus(Get(counts0, p), SumOf(group[..i + 1], Share(xlink, hits, groupBy, multimax, p)))
    {
      var f := Share(xlink, hits, groupBy, multimax, p);
      SumOfAppend(group[..i], group[i], f);
      assert f(group[i]) == Zero;
      PlusZeroRight(SumOf(group[..i], f));
    }
  }

  /** After the first `k` hits, each of them has added its share at every
      position. */
  lemma {:induction false} VisitFirstSum(counts0: Table, xlink: int, hits: seq<Hit>, ss: int, k: nat,
                                         groupBy: GroupBy, multimax: int)
    requires WellFormed(hits) && k <= |Filter(hits, ss)|
    ensures Partial(counts0, VisitFirst(counts0, xlink, hits, ss, k, groupBy, multimax), xlink, hits,
                    Filter(hits, ss)[..k], groupBy, multimax)
  {
    var group := Filter(hits, ss);
    if k == 0 {
      forall p
        ensures Get(counts0, p) == Tables.Plus(Get(counts0, p), SumOf(group[..0], Share(xlink, hits, groupBy, multimax, p)))
      {
        PlusZeroRight(Get(counts0, p));
      }
    } else {
      var i := k - 1;
      var h := group[i];
      assert h in group;
      var counts := VisitFirst(counts0, xlink, hits, ss, i, groupBy, multimax);
      VisitFirstSum(counts0, xlink, hits, ss, i, groupBy, multimax);
      assert forall g :: g in group ==> g in hits;
      if Eligible(h, multimax) {
        GroupLenCovers(hits, h, multimax);
        CountedHit(counts, xlink, h, hits, groupBy, multimax, Weight(h, GroupLen(hits, ss, multimax)));
        AddHit(counts0, counts, xlink, hits, group, i, groupBy, multimax, VisitFirst(counts0, xlink, hits, ss, k, groupBy, multimax));
      } else {
        SkipHit(counts0, counts, xlink, hits, group, i, groupBy, multimax);
      }
    }
  }

  /** Visiting hits keeps every entry bounded. */
  lemma {:induction false} VisitFirstBounded(counts0: Table, xlink: int, hits: seq<Hit>, ss: int, k: nat,
                                             groupBy: GroupBy, multimax: int)
    requires WellFormed(hits) && k <= |Filter(hits, ss)| && Bounded(counts0)
    ensures Bounded(VisitFirst(counts0, xlink, hits, ss, k, groupBy, multimax))
  {
    if k > 0 {
      var h := Filter(hits, ss)[k - 1];
      assert h in Filter(hits, ss);
      VisitFirstBounded(counts0, xlink, hits, ss, k - 1, groupBy, multimax);
      if Eligible(h, multimax) {
        GroupLenCovers(hits, h, multimax);
        WeightInUnit(h, GroupLen(hits, ss, multimax));
        AddedBounded(VisitFirst(counts0, xlink, hits, ss, k - 1, groupBy, multimax), ReportPos(xlink, h, groupBy),
                     Weight(h, GroupLen(hits, ss, multimax)));
      }
    }
  }

  /** The inner loop of `_collapse` over the hits of one second-start group,
      preceded by the group's eligible read length. */
  method AddGroup(counts0: Table, xlink: int, hits: seq<Hit>, ss: int, group: seq<Hit>,
                  groupBy: GroupBy, multimax: int) returns (counts: Table)
    requires WellFormed(hits) && group == Filter(hits, ss)
    ensures counts == VisitFirst(counts0, xlink, hits, ss, |group|, groupBy, multimax)
  {
    var sumLen := EligibleLength(group, multimax);
    counts := counts0;
    var i := 0;
    while i < |group|
      invariant 0 <= i <= |group|
      invariant counts == VisitFirst(counts0, xlink, hits, ss, i, groupBy, multimax)
    {
      var h := group[i];
      if h.numMapped <= multimax {
        assert h in group;
        GroupLenCovers(hits, h, multimax);
        var pos := ReportPos(xlink, h, groupBy);
        var w := Weight(h, sumLen);
        counts := counts[pos := Tables.Plus(Get(counts, pos), Counts(w, 1))];
      }
      i := i + 1;
    }
  }

  /** One more barcode added to those already counted. */
  lemma DoneAtAdd(xlink: int, byBc: ByBarcode, done: set<string>, b: string, groupBy: GroupBy, multimax: int, p: int)
    requires AllWellFormed(byBc) && b in byBc && b !in done
    ensures DoneAt(xlink, byBc, done + {b}, groupBy, multimax, p)
         == Tables.Plus(DoneAt(xlink, byBc, done, groupBy, multimax, p), BarcodeAt(xlink, byBc[b], groupBy, multimax, p))
  {
    var m := DoneMap(xlink, byBc, done, groupBy, multimax, p);
    var v := BarcodeAt(xlink, byBc[b], groupBy, multimax, p);
    assert DoneMap(xlink, byBc, done + {b}, groupBy, multimax, p) == m[b := v];
    SumMapAdd(m, b, v);
    PlusComm(v, SumMap(m));
  }

  /** `counts` holds, at every position, what the barcodes of `done` add. */
  ghost predicate Counted(counts: Table, xlink: int, byBc: ByBarcode, done: set<string>, groupBy: GroupBy, multimax: int)
    requires AllWellFormed(byBc)
  {
    forall p :: Get(counts, p) == DoneAt(xlink, byBc, done, groupBy, multimax, p)
  }

  /** Nothing counted yet. */
  lemma CountedNone(xlink: int, byBc: ByBarcode, groupBy: GroupBy, multimax: int)
    requires AllWellFormed(byBc)
    ensures Counted(map[], xlink, byBc, {}, groupBy, multimax)
  {
    forall p
      ensures Get(map[], p) == DoneAt(xlink, byBc, {}, groupBy, multimax, p)
    {
      var m := DoneMap(xlink, byBc, {}, groupBy, multimax, p);
      assert m.Keys == {};
      SumMapEmpty(m);
    }
  }

  /** Counting one more barcode. */
  lemma CountedAdd(counts: Table, next: Table, xlink: int, byBc: ByBarcode, done: set<string>, bc: string,
                   groupBy: GroupBy, multimax: int)
    requires AllWellFormed(byBc) && bc in byBc && bc !in done
    requires Counted(counts, xlink, byBc, done, groupBy, multimax)
    requires Partial(counts, next, xlink, byBc[bc], byBc[bc], groupBy, multimax)
    ensures Counted(next, xlink, byBc, done + {bc}, groupBy, multimax)
  {
    forall p
      ensures Get(next, p) == DoneAt(xlink, byBc, done + {bc}, groupBy, multimax, p)
    {
      DoneAtAdd(xlink, byBc, done, bc, groupBy, multimax, p);
    }
  }

  /** No group visited yet. */
  lemma GroupsNone(before: Table, xlink: int, hits: seq<Hit>, groupBy: GroupBy, multimax: int)
    requires WellFormed(hits)
    ensures Partial(before, before, xlink, hits, FilterIn(hits, {}), groupBy, multimax)
  {
    FilterInNone(hits);
    forall p
      ensures Get(before, p) == Tables.Plus(Get(before, p), SumOf(FilterIn(hits, {}), Share(xlink, hits, groupBy, multimax, p)))
    {
      PlusZeroRight(Get(before, p));
    }
  }

  /** One more group visited, whatever the order of the groups. */
  lemma GroupAdded(before: Table, mid: Table, xlink: int, hits: seq<Hit>, visited: set<int>, ss: int,
                   groupBy: GroupBy, multimax: int)
    requires WellFormed(hits) && ss !in visited
    requires Partial(before, mid, xlink, hits, FilterIn(hits, visited), groupBy, multimax)
    ensures Partial(before, VisitFirst(mid, xlink, hits, ss, |Filter(hits, ss)|, groupBy, multimax), xlink, hits,
                    FilterIn(hits, visited + {ss}), groupBy, multimax)
  {
    var after := VisitFirst(mid, xlink, hits, ss, |Filter(hits, ss)|, groupBy, multimax);
    VisitFirstSum(mid, xlink, hits, ss, |Filter(hits, ss)|, groupBy, multimax);
    assert Filter(hits, ss)[..|Filter(hits, ss)|] == Filter(hits, ss);
    forall p
      ensures Get(after, p) == Tables.Plus(Get(before, p), SumOf(FilterIn(hits, visited + {ss}), Share(xlink, hits, groupBy, multimax, p)))
    {
      var f := Share(xlink, hits, groupBy, multimax, p);
      SumOfSplit(hits, visited, ss, f);
      PlusAssoc(Get(before, p), SumOf(FilterIn(hits, visited), f), SumOf(Filter(hits, ss), f));
    }
  }

  /** Once every second start has been visited, every hit has been. */
  lemma GroupsAll(before: Table, counts: Table, xlink: int, hits: seq<Hit>, starts: set<int>, groupBy: GroupBy, multimax: int)
    requires WellFormed(hits) && SecondStarts(hits) <= starts
    requires Partial(before, counts, xlink, hits, FilterIn(hits, starts), groupBy, multimax)
    ensures Partial(before, counts, xlink, hits, hits, groupBy, multimax)
  {
    FilterInEvery(hits, starts);
  }

  /** The body of `_collapse`'s loop over barcodes: separate the hits by second
      start, then visit every group. */
  method CollapseBarcode(counts0: Table, xlink: int, hits: seq<Hit>, groupBy: GroupBy, multimax: int) returns (counts: Table)
    requires WellFormed(hits) && Bounded(counts0)
    ensures Bounded(counts) && Partial(counts0, counts, xlink, hits, hits, groupBy, multimax)
  {
    var groups := SeparateBySecondStart(hits);
    counts := counts0;
    var pending := groups.Keys;
    ghost var visited: set<int> := {};
    GroupsNone(counts0, xlink, hits, groupBy, multimax);
    while pending != {}
      invariant visited <= groups.Keys && pending == groups.Keys - visited
      invariant Bounded(counts) && Partial(counts0, counts, xlink, hits, FilterIn(hits, visited), groupBy, multimax)
      decreases pending
    {
      ghost var u := Pick(pending);
      assert u in pending;
      var ss :| ss in pending;
      ghost var mid := counts;
      counts := AddGroup(counts, xlink, hits, ss, groups[ss], groupBy, multimax);
      VisitFirstBounded(mid, xlink, hits, ss, |groups[ss]|, groupBy, multimax);
      GroupAdded(counts0, mid, xlink, hits, visited, ss, groupBy, multimax);
      visited := visited + {ss};
      pending := pending - {ss};
    }
    assert visited == groups.Keys;
    GroupsAll(counts0, counts, xlink, hits, visited, groupBy, multimax);
  }

  /** `_collapse(xlink_pos, by_bc, group_by, multimax)`: the table holds, at
      every position, exactly what the barcodes' eligible hits add there, and
      each of its entries has between zero (excluded) and `reads` cDNAs. */
  method Collapse(xlink: int, byBc: ByBarcode, groupBy: GroupBy, multimax: int) returns (counts: Table)
    requires AllWellFormed(byBc)
    ensures Bounded(counts)
    ensures forall p :: Get(counts, p) == CollapseAt(xlink, byBc, groupBy, multimax, p)
  {
    counts := map[];
    var todo := byBc.Keys;
    ghost var done: set<string> := {};
    CountedNone(xlink, byBc, groupBy, multimax);
    while todo != {}
      invariant done <= byBc.Keys && todo == byBc.Keys - done
      invariant Bounded(counts) && Counted(counts, xlink, byBc, done, groupBy, multimax)
      decreases todo
    {
      ghost var w := Pick(todo);
      assert w in todo;
      var bc :| bc in todo;
      ghost var before := counts;
      counts := CollapseBarcode(counts, xlink, byBc[bc], groupBy, multimax);
      CountedAdd(before, counts, xlink, byBc, done, bc, groupBy, multimax);
      done := done + {bc};
      todo := todo - {bc};
    }
    assert done == byBc.Keys;
  }
}
