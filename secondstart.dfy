/** Second-start resolution: the largest gap of a spliced read, optionally
    checked against the segmentation; reads whose second start cannot be
    confirmed are flagged as strange. */
module SecondStarts {
  import opened Types

  /** `[j - i - 1 for i, j in zip(poss, poss[1:])]`: the gaps between
      consecutive aligned positions. */
  function Holes(poss: seq<int>): (h: seq<int>)
    ensures |poss| <= 1 ==> h == []
    ensures |poss| >= 1 ==> |h| == |poss| - 1
  {
    if |poss| <= 1 then []
    else [poss[1] - poss[0] - 1] + Holes(poss[1..])
  }

  /** Each hole is the number of reference positions skipped between two
      consecutive aligned positions. */
  lemma {:induction false} HoleAt(poss: seq<int>, i: int)
    requires 0 <= i < |poss| - 1
    ensures Holes(poss)[i] == poss[i + 1] - poss[i] - 1
  {
    if i > 0 {
      HoleAt(poss[1..], i - 1);
    }
  }

  /** Python's `max(s)` on a non-empty list. */
  function MaxOf(s: seq<int>): (m: int)
    requires |s| > 0
    ensures m in s
    ensures forall x :: x in s ==> x <= m
  {
    if |s| == 1 then s[0]
    else
      var rest := MaxOf(s[1..]);
      assert forall x :: x in s ==> x == s[0] || x in s[1..];
      if s[0] < rest then rest else s[0]
  }

  /** Python's `s.index(x)`: the first position holding `x`. */
  function IndexOf(s: seq<int>, x: int): (i: nat)
    requires x in s
    ensures i < |s| && s[i] == x
    ensures forall j :: 0 <= j < i ==> s[j] != x
  {
    if s[0] == x then 0 else 1 + IndexOf(s[1..], x)
  }

  /** The transcript id that stands for a whole gene, skipped by the search. */
  const GeneSegment := "gene_segment"

  /** `_intersects_with_annotaton` over the genes of one (chrom, strand): some
      segment of a real transcript starts (on `+`) or stops (on `-`) at `pos`. */
  predicate Intersects(pos: int, genes: Genes, strand: Strand)
  {
    exists gene, tid, seg ::
      gene in genes && tid in genes[gene] && tid != GeneSegment && seg in genes[gene][tid] &&
      Edge(seg, strand) == pos
  }

  /** The border of a segment compared on each strand. */
  function Edge(seg: Segment, strand: Strand): int
  {
    if strand == Plus then seg.start else seg.stop
  }

  /** The `gene_segment` entries never decide the search. */
  lemma GeneSegmentIgnored(pos: int, genes: Genes, strand: Strand, gene: string, segs: seq<Segment>)
    requires gene in genes
    ensures Intersects(pos, genes[gene := genes[gene][GeneSegment := segs]], strand) <==> Intersects(pos, genes, strand)
  {
    var g' := genes[gene := genes[gene][GeneSegment := segs]];
    if Intersects(pos, g', strand) {
      var ge: string, t: string, sg: Segment :|
        ge in g' && t in g'[ge] && t != GeneSegment && sg in g'[ge][t] && Edge(sg, strand) == pos;
      assert ge in genes && t in genes[ge] && sg in genes[ge][t];
    }
    if Intersects(pos, genes, strand) {
      var ge: string, t: string, sg: Segment :|
        ge in genes && t in genes[ge] && t != GeneSegment && sg in genes[ge][t] && Edge(sg, strand) == pos;
      assert ge in g' && t in g'[ge] && sg in g'[ge][t];
    }
  }

  /** The border of the hole at `k` that a second part of the read starts on:
      the right border on `+`, the left one on `-`. */
  function Border(poss: seq<int>, k: int, strand: Strand): int
    requires 0 <= k < |poss| - 1
  {
    if strand == Plus then poss[k + 1] else poss[k]
  }

  /** `_second_start`: the second start and whether the read is strange, or
      the exception the source raises. */
  function SecondStart(poss: seq<int>, strand: Strand, chrom: string, annotation: Annotation,
                       holesizeTh: int): Result<(int, bool)>
  {
    var holes := Holes(poss);
    var biggest := if |holes| == 0 then 0 else MaxOf(holes);
    if |annotation| == 0 then Ok((0, biggest > holesizeTh))
    else if |holes| == 0 then Err(NoHoles)
    else
      var candidate := Border(poss, IndexOf(holes, biggest), strand);
      var key := ChromStrand(chrom, strand);
      if key !in annotation then Err(NoAnnotationFor(key))
      else if Intersects(candidate, annotation[key], strand) then Ok((candidate, false))
      else Ok((0, true))
  }

  /** Without a segmentation the second start is always 0, and the read is
      strange exactly when some hole is larger than the threshold (or, for a
      read without holes, when the threshold is negative). */
  lemma WithoutAnnotation(poss: seq<int>, strand: Strand, chrom: string, annotation: Annotation, th: int)
    requires |annotation| == 0
    ensures SecondStart(poss, strand, chrom, annotation, th).Ok?
    ensures SecondStart(poss, strand, chrom, annotation, th).value.0 == 0
    ensures |poss| >= 2 ==>
      (SecondStart(poss, strand, chrom, annotation, th).value.1 <==>
         exists i :: 0 <= i < |poss| - 1 && poss[i + 1] - poss[i] - 1 > th)
    ensures |poss| < 2 ==> (SecondStart(poss, strand, chrom, annotation, th).value.1 <==> th < 0)
  {
    var holes := Holes(poss);
    if |poss| >= 2 {
      var m := MaxOf(holes);
      var k :| 0 <= k < |holes| && holes[k] == m;
      HoleAt(poss, k);
      forall i | 0 <= i < |poss| - 1
        ensures poss[i + 1] - poss[i] - 1 <= m
      {
        HoleAt(poss, i);
        assert holes[i] in holes;
      }
    }
  }

  /** With a segmentation, the candidate is the border of the first largest
      hole; it is kept exactly when the segmentation confirms it, and otherwise
      the read is strange with second start 0. Reads that are not split are not
      exempt: their candidate border is looked up as well. */
  lemma WithAnnotation(poss: seq<int>, strand: Strand, chrom: string, annotation: Annotation, th: int,
                       k: int)
    requires |annotation| > 0 && ChromStrand(chrom, strand) in annotation
    requires 0 <= k < |poss| - 1
    requires forall j :: 0 <= j < |poss| - 1 ==> poss[j + 1] - poss[j] <= poss[k + 1] - poss[k]
    requires forall j :: 0 <= j < k ==> poss[j + 1] - poss[j] < poss[k + 1] - poss[k]
    ensures SecondStart(poss, strand, chrom, annotation, th) ==
      if Intersects(Border(poss, k, strand), annotation[ChromStrand(chrom, strand)], strand)
      then Ok((Border(poss, k, strand), false))
      else Ok((0, true))
  {
    var holes := Holes(poss);
    var m := MaxOf(holes);
    HoleAt(poss, k);
    forall j | 0 <= j < |holes|
      ensures holes[j] <= holes[k] && (j < k ==> holes[j] != holes[k])
    {
      HoleAt(poss, j);
    }
    var i :| 0 <= i < |holes| && holes[i] == m;
    assert holes[k] in holes;
    assert m == holes[k];
    var idx := IndexOf(holes, m);
    assert idx == k;
  }

  /** The exceptions: a read without holes cannot be resolved against a
      segmentation, and a segmentation must hold the read's (chrom, strand). */
  lemma Failures(poss: seq<int>, strand: Strand, chrom: string, annotation: Annotation, th: int)
    requires |annotation| > 0
    ensures |poss| < 2 ==> SecondStart(poss, strand, chrom, annotation, th) == Err(NoHoles)
    ensures |poss| >= 2 && ChromStrand(chrom, strand) !in annotation ==>
              SecondStart(poss, strand, chrom, annotation, th) == Err(NoAnnotationFor(ChromStrand(chrom, strand)))
  {
  }

  /** A strange read never keeps a second start, and a kept one is confirmed. */
  lemma StrangeHasNoSecondStart(poss: seq<int>, strand: Strand, chrom: string, annotation: Annotation, th: int)
    requires SecondStart(poss, strand, chrom, annotation, th).Ok?
    ensures SecondStart(poss, strand, chrom, annotation, th).value.1 ==>
              SecondStart(poss, strand, chrom, annotation, th).value.0 == 0
    ensures |annotation| > 0 && !SecondStart(poss, strand, chrom, annotation, th).value.1 ==>
              Intersects(SecondStart(poss, strand, chrom, annotation, th).value.0,
                         annotation[ChromStrand(chrom, strand)], strand)
  {
  }

  /** A contiguous read on `+` whose next position starts a segment gets that
      position as its second start (the largest hole, of size 0, is the first). */
  lemma ContiguousReadLookedUp()
    ensures SecondStart([10, 11, 12], Plus, "chr1", map[ChromStrand("chr1", Plus) :=
              map["g1" := map["t1" := [Segment(11, 20)]]]], 4) == Ok((11, false))
  {
    var poss := [10, 11, 12];
    var genes: Genes := map["g1" := map["t1" := [Segment(11, 20)]]];
    var annotation := map[ChromStrand("chr1", Plus) := genes];
    assert Holes(poss) == [0, 0] by {
      assert poss[1..] == [11, 12];
      assert poss[1..][1..] == [12];
    }
    assert Segment(11, 20) in genes["g1"]["t1"];
    assert |"t1"| != |GeneSegment|;
    assert "g1" in genes && "t1" in genes["g1"] && Edge(Segment(11, 20), Plus) == 11;
    assert Intersects(11, genes, Plus);
    WithAnnotation(poss, Plus, "chr1", annotation, 4, 0);
  }
}
