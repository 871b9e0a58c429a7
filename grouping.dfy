/** The record loop of `_processs_bam_file`: every alignment record is counted
    as unmapped, of low mapping quality or used; a used record yields a hit
    that is filed under (chrom, strand) -> cross-link position -> barcode. */
module Grouping {
  import opened Types
  import opened Counters
  import opened Order
  import opened Barcodes
  import opened SecondStarts
  import Tables

  // ---------------------------------------------------------------------------
  // Coordinates of a read

  function StrandOf(r: Record): Strand
  {
    if r.isReverse then Minus else Plus
  }

  /** Index of the middle nucleotide among `n` aligned positions: one upstream
      of the centre on `-` when `n` is even. */
  function MiddleIndex(n: nat, strand: Strand): int
    requires n >= 1
  {
    if n % 2 == 0 && strand == Minus then n / 2 - 1 else n / 2
  }

  /** The middle index is a valid index, and counted from the read's 5' end it
      is the same nucleotide on both strands. */
  lemma MiddleIndexMirrors(n: nat)
    requires n >= 1
    ensures 0 <= MiddleIndex(n, Plus) < n && 0 <= MiddleIndex(n, Minus) < n
    ensures MiddleIndex(n, Minus) == n - 1 - MiddleIndex(n, Plus)
  {
  }

  /** Cross-link, end and middle coordinates of a read. */
  datatype Place = Place(xlink: int, endPos: int, middlePos: int)

  /** The coordinates the loop derives from the sorted positions `poss`. */
  function Locate(poss: seq<int>, strand: Strand): Place
    requires |poss| >= 1
  {
    MiddleIndexMirrors(|poss|);
    var last := poss[|poss| - 1];
    Place(if strand == Minus then last + 1 else poss[0] - 1,
          if strand == Minus then poss[0] else last,
          poss[MiddleIndex(|poss|, strand)])
  }

  /** On the sorted positions, the cross-link is the nucleotide right before
      the read's 5' end (outside the read), the end is its 3' end, and the
      middle is one of its positions. */
  lemma LocateSorted(positions: seq<int>, strand: Strand)
    requires |positions| >= 1
    ensures |SortedInts(positions)| == |positions|
    ensures var p := Locate(SortedInts(positions), strand);
            p.middlePos in positions && p.endPos in positions
            && (strand == Plus ==> p.xlink + 1 in positions && forall q :: q in positions ==> p.xlink < q <= p.endPos)
            && (strand == Minus ==> p.xlink - 1 in positions && forall q :: q in positions ==> p.endPos <= q < p.xlink)
  {
    var poss := SortedInts(positions);
    SortedEnds(positions);
    MiddleIndexMirrors(|poss|);
    assert poss[MiddleIndex(|poss|, strand)] in multiset(poss);
  }

  /** The sorted positions are the positions, between the first and the last. */
  lemma SortedEnds(positions: seq<int>)
    requires |positions| >= 1
    ensures var poss := SortedInts(positions);
            |poss| == |positions| && poss[0] in positions && poss[|poss| - 1] in positions
            && forall q :: q in positions ==> poss[0] <= q <= poss[|poss| - 1]
  {
    var poss := SortedInts(positions);
    assert |poss| == |multiset(poss)| == |multiset(positions)| == |positions|;
    assert poss[0] in multiset(poss) && poss[|poss| - 1] in multiset(poss);
    forall q | q in positions
      ensures poss[0] <= q <= poss[|poss| - 1]
    {
      assert q in multiset(poss);
      var j :| 0 <= j < |poss| && poss[j] == q;
    }
  }

  // ---------------------------------------------------------------------------
  // The fate of one record

  /** A used record: where its hit is filed, and the hit. */
  datatype Entry = Entry(key: ChromStrand, xlink: int, bc: string, hit: Hit)

  /** A used record also keeps how its barcode was extracted. */
  datatype Fate = Unmapped | LowQuality | Used(entry: Entry, strange: bool, extraction: Extraction)

  /** The checks a record meets before its hit is derived: unmapped and
      low-quality records are skipped, a record without the NH tag raises,
      and the others are kept with their number of alignments. */
  datatype Screen = Skip(fate: Fate) | Keep(numMapped: int) | Reject(error: Error)

  function ScreenOf(r: Record, mapqTh: int): Screen
  {
    if r.isUnmapped then Skip(Unmapped)
    else if r.mapq < mapqTh then Skip(LowQuality)
    else if r.nh.None? then Reject(MissingNhTag(r.queryName))
    else Keep(r.nh.value)
  }

  /** What the loop does with one record, or the exception it raises. */
  ghost function Classify(r: Record, mapqTh: int, annotation: Annotation, holesizeTh: int): Result<Fate>
  {
    match ScreenOf(r, mapqTh)
    case Skip(f) => Ok(f)
    case Reject(e) => Err(e)
    case Keep(numMapped) => Derive(r, SortedInts(r.positions), numMapped, annotation, holesizeTh)
  }

  /** The hit a used record with `num_mapped` alignments and sorted positions
      `poss` leaves, and whether it is strange. */
  function Derive(r: Record, poss: seq<int>, numMapped: int, annotation: Annotation, holesizeTh: int): Result<Fate>
  {
    if |poss| == 0 then Err(NoPositions)
    else
      var strand := StrandOf(r);
      var place := Locate(poss, strand);
      match SecondStart(poss, strand, r.refName, annotation, holesizeTh)
      case Err(e) => Err(e)
      case Ok((ss, strange)) =>
        var x := ParseBarcode(r.queryName);
        Ok(Used(Entry(ChromStrand(r.refName, strand), place.xlink, Barcode(x),
                      Hit(place.middlePos, place.endPos, r.seqLen, numMapped, ss)), strange, x))
  }

  /** The counters of the loop: unmapped, low-quality and used records, used
      records with an invalid or a missing barcode, and the barcode counter. */
  datatype Tally = Tally(notMapped: nat, lowMapq: nat, used: nat, invalid: nat, missing: nat,
                         bcCn: map<string, nat>)

  /** `bc_cn[bc] += 1`, from zero for a new barcode. */
  function Bump(m: map<string, nat>, bc: string): map<string, nat>
  {
    m[bc := (if bc in m then m[bc] else 0) + 1]
  }

  /** The counters after one more used record whose barcode extraction is `x`. */
  function Admit(t: Tally, x: Extraction): Tally
  {
    t.(used := t.used + 1, invalid := t.invalid + (if x.Invalid? then 1 else 0),
       missing := t.missing + (if x.Missing? then 1 else 0), bcCn := Bump(t.bcCn, Barcode(x)))
  }

  /** The counters after one more record of fate `f`. */
  function Count(t: Tally, f: Fate): Tally
  {
    match f
    case Unmapped => t.(notMapped := t.notMapped + 1)
    case LowQuality => t.(lowMapq := t.lowMapq + 1)
    case Used(_, _, x) => Admit(t, x)
  }

  /** What the loop has gathered: the used records' entries in order, the
      strange records, and the counters. */
  datatype Outcome = Outcome(entries: seq<Entry>, strange: seq<Record>, tally: Tally)

  function Account(o: Outcome, r: Record, f: Fate): Outcome
  {
    Outcome(if f.Used? then o.entries + [f.entry] else o.entries,
            if f.Used? && f.strange then o.strange + [r] else o.strange,
            Count(o.tally, f))
  }

  /** The loop over the first `n` records: the first exception, or what it gathered. */
  ghost function Collect(records: seq<Record>, n: nat, mapqTh: int, annotation: Annotation, holesizeTh: int): Result<Outcome>
    requires n <= |records|
  {
    if n == 0 then Ok(Outcome([], [], Tally(0, 0, 0, 0, 0, map[])))
    else
      match Collect(records, n - 1, mapqTh, annotation, holesizeTh)
      case Err(e) => Err(e)
      case Ok(o) =>
        match Classify(records[n - 1], mapqTh, annotation, holesizeTh)
        case Err(e) => Err(e)
        case Ok(f) => Ok(Account(o, records[n - 1], f))
  }

  /** Every record is exactly one of unmapped, low quality and used; strange
      records and degraded barcodes are among the used ones. */
  lemma {:induction false} CollectTally(records: seq<Record>, n: nat, mapqTh: int, annotation: Annotation, holesizeTh: int)
    requires n <= |records| && Collect(records, n, mapqTh, annotation, holesizeTh).Ok?
    ensures var o := Collect(records, n, mapqTh, annotation, holesizeTh).value;
            o.tally.notMapped + o.tally.lowMapq + |o.entries| == n && o.tally.used == |o.entries|
            && |o.strange| <= |o.entries| && o.tally.invalid + o.tally.missing <= |o.entries|
  {
    if n != 0 {
      CollectTally(records, n - 1, mapqTh, annotation, holesizeTh);
    }
  }

  /** Once an exception is raised, the later records do not matter. */
  lemma {:induction false} CollectErrSticks(records: seq<Record>, i: nat, j: nat, mapqTh: int, annotation: Annotation, holesizeTh: int)
    requires i <= j <= |records|
    requires Collect(records, i, mapqTh, annotation, holesizeTh).Err?
    ensures Collect(records, j, mapqTh, annotation, holesizeTh) == Collect(records, i, mapqTh, annotation, holesizeTh)
  {
    if i < j {
      CollectErrSticks(records, i, j - 1, mapqTh, annotation, holesizeTh);
    }
  }

  /** A record that is not rejected adds its fate to what the loop gathered. */
  lemma CollectNext(records: seq<Record>, i: nat, o: Outcome, f: Fate, mapqTh: int, annotation: Annotation, holesizeTh: int)
    requires i < |records| && Collect(records, i, mapqTh, annotation, holesizeTh) == Ok(o)
    requires Classify(records[i], mapqTh, annotation, holesizeTh) == Ok(f)
    ensures Collect(records, i + 1, mapqTh, annotation, holesizeTh) == Ok(Account(o, records[i], f))
  {
  }

  /** A record that fails a check, or whose hit cannot be derived, ends the loop. */
  lemma CollectFail(records: seq<Record>, i: nat, o: Outcome, e: Error, mapqTh: int, annotation: Annotation, holesizeTh: int)
    requires i < |records| && Collect(records, i, mapqTh, annotation, holesizeTh) == Ok(o)
    requires Classify(records[i], mapqTh, annotation, holesizeTh) == Err(e)
    ensures Collect(records, |records|, mapqTh, annotation, holesizeTh) == Err(e)
  {
    CollectErrSticks(records, i + 1, |records|, mapqTh, annotation, holesizeTh);
  }

  // ---------------------------------------------------------------------------
  // Filing hits: grouped.setdefault(key, {}).setdefault(xlink, {}).setdefault(bc, []).append(hit)

  /** The hit list under (key, xlink, bc), empty when there is none. */
  function Lookup(g: Grouped, key: ChromStrand, xlink: int, bc: string): seq<Hit>
  {
    if key in g && xlink in g[key] && bc in g[key][xlink] then g[key][xlink][bc] else []
  }

  function Insert(g: Grouped, e: Entry): Grouped
  {
    var byPos := if e.key in g then g[e.key] else map[];
    var byBc := if e.xlink in byPos then byPos[e.xlink] else map[];
    var hits := if e.bc in byBc then byBc[e.bc] else [];
    g[e.key := byPos[e.xlink := byBc[e.bc := hits + [e.hit]]]]
  }

  /** Filing one entry appends its hit to its own list and changes no other list. */
  lemma InsertLookup(g: Grouped, e: Entry, key: ChromStrand, xlink: int, bc: string)
    ensures Lookup(Insert(g, e), key, xlink, bc)
         == Lookup(g, key, xlink, bc) + (if e.key == key && e.xlink == xlink && e.bc == bc then [e.hit] else [])
  {
  }

  /** No empty level: `setdefault` only creates what it then fills. */
  predicate Tidy(g: Grouped)
  {
    forall key :: key in g ==> (|g[key]| > 0 &&
      forall x :: x in g[key] ==> (|g[key][x]| > 0 &&
        forall bc :: bc in g[key][x] ==> |g[key][x][bc]| > 0))
  }

  lemma InsertTidy(g: Grouped, e: Entry)
    requires Tidy(g)
    ensures Tidy(Insert(g, e))
  {
  }

  /** The hierarchy built by filing `entries` in order. */
  function GroupAll(entries: seq<Entry>): Grouped
  {
    if |entries| == 0 then map[]
    else Insert(GroupAll(entries[..|entries| - 1]), entries[|entries| - 1])
  }

  /** The hits of the entries filed under (key, xlink, bc), in order. */
  function Select(entries: seq<Entry>, key: ChromStrand, xlink: int, bc: string): seq<Hit>
  {
    if |entries| == 0 then []
    else
      var e := entries[|entries| - 1];
      Select(entries[..|entries| - 1], key, xlink, bc)
        + (if e.key == key && e.xlink == xlink && e.bc == bc then [e.hit] else [])
  }

  /** Every used record's hit sits in exactly the list of its own (chrom,
      strand), cross-link and barcode, in the order of the records. */
  lemma {:induction false} GroupAllSelect(entries: seq<Entry>, key: ChromStrand, xlink: int, bc: string)
    ensures Lookup(GroupAll(entries), key, xlink, bc) == Select(entries, key, xlink, bc)
  {
    if |entries| != 0 {
      GroupAllSelect(entries[..|entries| - 1], key, xlink, bc);
      InsertLookup(GroupAll(entries[..|entries| - 1]), entries[|entries| - 1], key, xlink, bc);
    }
  }

  lemma {:induction false} GroupAllTidy(entries: seq<Entry>)
    ensures Tidy(GroupAll(entries))
  {
    if |entries| != 0 {
      GroupAllTidy(entries[..|entries| - 1]);
      InsertTidy(GroupAll(entries[..|entries| - 1]), entries[|entries| - 1]);
    }
  }

  // ---------------------------------------------------------------------------
  // The loop

  /** `bc_cn`: barcode -> number of entries carrying it. */
  function BarcodeCounts(entries: seq<Entry>): map<string, nat>
  {
    if |entries| == 0 then map[]
    else
      Bump(BarcodeCounts(entries[..|entries| - 1]), entries[|entries| - 1].bc)
  }

  /** The number of entries with barcode `bc`. */
  function CountBarcode(entries: seq<Entry>, bc: string): nat
  {
    if |entries| == 0 then 0
    else CountBarcode(entries[..|entries| - 1], bc) + (if entries[|entries| - 1].bc == bc then 1 else 0)
  }

  /** The barcode counter holds exactly the barcodes that occur, each with its
      number of occurrences. */
  lemma {:induction false} BarcodeCountsExact(entries: seq<Entry>, bc: string)
    ensures bc in BarcodeCounts(entries) <==> CountBarcode(entries, bc) > 0
    ensures bc in BarcodeCounts(entries) ==> BarcodeCounts(entries)[bc] == CountBarcode(entries, bc)
  {
    if |entries| != 0 {
      BarcodeCountsExact(entries[..|entries| - 1], bc);
    }
  }

  /** The barcode counts add up to the number of used records. */
  lemma {:induction false} BarcodeCountsSum(entries: seq<Entry>)
    ensures Tables.SumNat(BarcodeCounts(entries)) == |entries|
  {
    if |entries| != 0 {
      BarcodeCountsSum(entries[..|entries| - 1]);
      Tables.SumNatIncrement(BarcodeCounts(entries[..|entries| - 1]), entries[|entries| - 1].bc);
    }
  }

  /** The counters after the first `n` records, which gathered the tally `t`. */
  ghost predicate Tallied(metrics: Metrics, t: Tally, n: nat)
    reads metrics
  {
    metrics.allRecs == n && metrics.notmappedRecs == t.notMapped && metrics.mappedRecs + t.notMapped == n
    && metrics.lowmapqRecs == t.lowMapq && metrics.usedRecs == t.used
    && metrics.invalidrandomerRecs == t.invalid && metrics.norandomerRecs == t.missing
    && metrics.bcCn == t.bcCn
  }

  /** A used record's fate carries the barcode extraction of its name, and its
      entry the barcode that extraction gives. */
  lemma DeriveUsed(r: Record, poss: seq<int>, numMapped: int, annotation: Annotation, holesizeTh: int)
    ensures var d := Derive(r, poss, numMapped, annotation, holesizeTh);
            d.Ok? ==> d.value.Used? && d.value.extraction == ParseBarcode(r.queryName)
                      && d.value.entry.bc == Barcode(ParseBarcode(r.queryName))
  {
  }

  /** The counter the loop keeps is the count of the barcodes of the entries. */
  lemma {:induction false} CollectCounts(records: seq<Record>, n: nat, mapqTh: int, annotation: Annotation, holesizeTh: int)
    requires n <= |records| && Collect(records, n, mapqTh, annotation, holesizeTh).Ok?
    ensures var o := Collect(records, n, mapqTh, annotation, holesizeTh).value;
            o.tally.bcCn == BarcodeCounts(o.entries)
  {
    if n != 0 {
      var last := records[n - 1];
      var o := Collect(records, n - 1, mapqTh, annotation, holesizeTh).value;
      CollectCounts(records, n - 1, mapqTh, annotation, holesizeTh);
      var f := Classify(last, mapqTh, annotation, holesizeTh).value;
      if f.Used? {
        DeriveUsed(last, SortedInts(last.positions), last.nh.value, annotation, holesizeTh);
        assert (o.entries + [f.entry])[..|o.entries|] == o.entries;
      }
    }
  }

  /** The counting part of the loop body on record `r` (up to and including
      `bc_cn`): how the record is screened, and the counters it leaves. */
  method CountRecord(r: Record, metrics: Metrics, ghost t: Tally, ghost n: nat, mapqTh: int)
    returns (screen: Screen)
    requires Tallied(metrics, t, n)
    modifies metrics
    ensures screen == ScreenOf(r, mapqTh)
    ensures screen.Skip? ==> Tallied(metrics, Count(t, screen.fate), n + 1)
    ensures screen.Keep? ==> Tallied(metrics, Admit(t, ParseBarcode(r.queryName)), n + 1)
    ensures screen.Reject? ==> Tallied(metrics, t.(used := t.used + 1), n + 1)
    ensures metrics.strangeRecs == old(metrics.strangeRecs)
  {
    metrics.allRecs := metrics.allRecs + 1;
    if r.isUnmapped {
      metrics.notmappedRecs := metrics.notmappedRecs + 1;
      return Skip(Unmapped);
    }
    metrics.mappedRecs := metrics.mappedRecs + 1;
    if r.mapq < mapqTh {
      metrics.lowmapqRecs := metrics.lowmapqRecs + 1;
      return Skip(LowQuality);
    }
    metrics.usedRecs := metrics.usedRecs + 1;
    if r.nh.None? {
      return Reject(MissingNhTag(r.queryName));
    }
    var bc := GetRandomBarcode(r.queryName, metrics);
    metrics.bcCn := Bump(metrics.bcCn, bc);
    screen := Keep(r.nh.value);
  }

  /** The counters a record that raises leaves: it was counted as used, and
      the `NH` check raises before its barcode is counted, any later failure
      after. */
  function Charged(t: Tally, r: Record, mapqTh: int): Tally
  {
    if ScreenOf(r, mapqTh).Reject? then t.(used := t.used + 1) else Admit(t, ParseBarcode(r.queryName))
  }

  /** The counters after the first `n` records, which gathered the tally `t`,
      and a record `r` that raises. */
  ghost predicate Raised(metrics: Metrics, t: Tally, r: Record, n: nat, mapqTh: int)
    reads metrics
  {
    Tallied(metrics, Charged(t, r, mapqTh), n + 1)
  }

  /** Filing one more entry is one more `setdefault(...).append(...)`. */
  lemma GroupAllStep(entries: seq<Entry>, e: Entry)
    ensures GroupAll(entries + [e]) == Insert(GroupAll(entries), e)
  {
    assert (entries + [e])[..|entries|] == entries;
  }

  /** Lines from `if r.is_reverse` to the `append`, given the sorted `poss`:
      derive the hit of a kept record and file it, noting the record when it
      is strange. */
  method FileHit(r: Record, poss: seq<int>, numMapped: int, annotation: Annotation, holesizeTh: int,
                 grouped: Grouped, strange: seq<Record>)
    returns (d: Result<Fate>, grouped': Grouped, strange': seq<Record>)
    ensures d == Derive(r, poss, numMapped, annotation, holesizeTh)
    ensures d.Ok? && d.value.Used? ==>
              grouped' == Insert(grouped, d.value.entry)
              && strange' == if d.value.strange then strange + [r] else strange
    ensures d.Err? ==> grouped' == grouped && strange' == strange
  {
    d := Derive(r, poss, numMapped, annotation, holesizeTh);
    grouped', strange' := grouped, strange;
    if d.Ok? && d.value.Used? {
      if d.value.strange {
        strange' := strange + [r];
      }
      grouped' := Insert(grouped, d.value.entry);
    }
  }

  /** The loop body on record `r`: its fate or the exception it raises and,
      unless it raises, the counters, hierarchy and strange records that
      account for it as well. */
  method Step(r: Record, metrics: Metrics, grouped: Grouped, strange: seq<Record>, ghost o: Outcome, ghost n: nat,
              mapqTh: int, annotation: Annotation, holesizeTh: int)
    returns (fate: Result<Fate>, grouped': Grouped, strange': seq<Record>)
    requires Tallied(metrics, o.tally, n) && grouped == GroupAll(o.entries) && strange == o.strange
    modifies metrics
    ensures fate == Classify(r, mapqTh, annotation, holesizeTh)
    ensures fate.Ok? ==> var o' := Account(o, r, fate.value);
                         Tallied(metrics, o'.tally, n + 1) && grouped' == GroupAll(o'.entries) && strange' == o'.strange
    ensures fate.Err? ==> Raised(metrics, o.tally, r, n, mapqTh) && grouped' == grouped && strange' == strange
    ensures metrics.strangeRecs == old(metrics.strangeRecs)
  {
    grouped', strange' := grouped, strange;
    var screen := CountRecord(r, metrics, o.tally, n, mapqTh);
    match screen {
      case Reject(e) =>
        fate := Err(e);
      case Skip(f) =>
        fate := Ok(f);
      case Keep(numMapped) =>
        var poss := SortPositions(r.positions);
        fate, grouped', strange' := FileHit(r, poss, numMapped, annotation, holesizeTh, grouped, strange);
        DeriveUsed(r, poss, numMapped, annotation, holesizeTh);
        if fate.Ok? {
          GroupAllStep(o.entries, fate.value.entry);
          assert Account(o, r, fate.value).tally == Admit(o.tally, ParseBarcode(r.queryName));
        }
    }
  }

  /** `_processs_bam_file` from the counter resets to `metrics.strange_recs`:
      the first exception the records raise, or the hierarchy of their hits,
      with the strange records and counters that account for every record. */
  method ProcessRecords(records: seq<Record>, metrics: Metrics, mapqTh: int, annotation: Annotation, holesizeTh: int)
    returns (res: Result<Grouped>, strange: seq<Record>)
    modifies metrics
    ensures res.Err? <==> Collect(records, |records|, mapqTh, annotation, holesizeTh).Err?
    ensures res.Err? ==> res.error == Collect(records, |records|, mapqTh, annotation, holesizeTh).error
    ensures res.Ok? ==>
              var o := Collect(records, |records|, mapqTh, annotation, holesizeTh).value;
              res.value == GroupAll(o.entries) && strange == o.strange
              && Tallied(metrics, o.tally, |records|) && metrics.bcCn == BarcodeCounts(o.entries)
              && metrics.strangeRecs == |strange|
    ensures res.Ok? ==>
              metrics.allRecs == |records| == metrics.notmappedRecs + metrics.mappedRecs
              && metrics.mappedRecs == metrics.lowmapqRecs + metrics.usedRecs
              && Tables.SumNat(metrics.bcCn) == metrics.usedRecs && metrics.strangeRecs <= metrics.usedRecs
  {
    metrics.allRecs, metrics.notmappedRecs, metrics.mappedRecs, metrics.lowmapqRecs, metrics.usedRecs := 0, 0, 0, 0, 0;
    metrics.invalidrandomerRecs, metrics.norandomerRecs := 0, 0;
    metrics.bcCn := map[];
    res, strange := ScanRecords(records, metrics, mapqTh, annotation, holesizeTh);
    if res.Ok? {
      CollectSummary(records, mapqTh, annotation, holesizeTh);
    }
  }

  /** What the counters of a finished record loop add up to. */
  lemma CollectSummary(records: seq<Record>, mapqTh: int, annotation: Annotation, holesizeTh: int)
    requires Collect(records, |records|, mapqTh, annotation, holesizeTh).Ok?
    ensures var o := Collect(records, |records|, mapqTh, annotation, holesizeTh).value;
            o.tally.bcCn == BarcodeCounts(o.entries)
            && o.tally.notMapped + o.tally.lowMapq + o.tally.used == |records|
            && Tables.SumNat(o.tally.bcCn) == o.tally.used && |o.strange| <= o.tally.used
  {
    CollectCounts(records, |records|, mapqTh, annotation, holesizeTh);
    CollectTally(records, |records|, mapqTh, annotation, holesizeTh);
    BarcodeCountsSum(Collect(records, |records|, mapqTh, annotation, holesizeTh).value.entries);
  }

  /** The record loop of `_processs_bam_file` from freshly reset counters:
      the first exception the records raise, or the hierarchy of their hits
      with the strange records and counters that account for every record;
      `strange_recs` is set only once the loop has finished. */
  method ScanRecords(records: seq<Record>, metrics: Metrics, mapqTh: int, annotation: Annotation, holesizeTh: int)
    returns (res: Result<Grouped>, strange: seq<Record>)
    requires Tallied(metrics, Tally(0, 0, 0, 0, 0, map[]), 0)
    modifies metrics
    ensures res.Err? <==> Collect(records, |records|, mapqTh, annotation, holesizeTh).Err?
    ensures res.Err? ==> res.error == Collect(records, |records|, mapqTh, annotation, holesizeTh).error
    ensures res.Ok? ==>
              var o := Collect(records, |records|, mapqTh, annotation, holesizeTh).value;
              res.value == GroupAll(o.entries) && strange == o.strange && Tallied(metrics, o.tally, |records|)
              && metrics.strangeRecs == |strange|
    ensures res.Err? ==> metrics.strangeRecs == old(metrics.strangeRecs)
  {
    var grouped: Grouped := map[];
    strange := [];
    ghost var o := Outcome([], [], Tally(0, 0, 0, 0, 0, map[]));
    var i := 0;
    while i < |records|
      invariant 0 <= i <= |records|
      invariant Collect(records, i, mapqTh, annotation, holesizeTh) == Ok(o)
      invariant Tallied(metrics, o.tally, i) && grouped == GroupAll(o.entries) && strange == o.strange
      invariant metrics.strangeRecs == old(metrics.strangeRecs)
    {
      var fate;
      fate, grouped, strange := Step(records[i], metrics, grouped, strange, o, i, mapqTh, annotation, holesizeTh);
      if fate.Err? {
        CollectFail(records, i, o, fate.error, mapqTh, annotation, holesizeTh);
        return Err(fate.error), strange;
      }
      CollectNext(records, i, o, fate.value, mapqTh, annotation, holesizeTh);
      o := Account(o, records[i], fate.value);
      i := i + 1;
    }
    metrics.strangeRecs := |strange|;
    res := Ok(grouped);
  }
}
