# iCount cross-link site detection, modelled in Dafny

This project models the engine of iCount's `xlsites` step, which turns aligned reads into cross-link sites with weighted counts. Each read carries a random barcode (a randomer) in its name. The model covers these stages:

- **Barcode extraction** (`_get_random_barcode`). The barcode is read from the read name: the text after the last `:rbc:` tag, otherwise the last colon-separated token if it is made of valid nucleotides. A read name without a colon, or whose untagged last token holds a character outside `ATCGN`, is counted in the run's metrics; a name that yields an empty barcode (one ending in `:`, say) is not.
- **Barcode matching** (`_match`). Two barcodes match when at most `mismatches` of the longer one's positions disagree. Comparison ignores case, and `N` matches anything.
- **Barcode merging** (`_merge_similar_randomers`). At one cross-link position, each ambiguous barcode (one holding `N`) is first assigned to the most frequent matching accepted barcode. Then, pass by pass, the most frequent barcode that has lower-ranked matches absorbs their hits. This repeats until no two barcodes match.
- **Second start** (`_second_start`, `_intersects_with_annotaton`). The border of a spliced read's largest gap, optionally confirmed against a segmentation. Reads whose gap cannot be accepted are flagged as strange.
- **Collapsing** (`_collapse`). Each eligible hit (mapped to at most `multimax` places) adds one read and a cDNA weight at its start, middle or end coordinate. The weight is `read_len / (num_mapped × eligible read length of its (barcode, second start) group)`.
- **The record loop of `_processs_bam_file`**. It counts records as unmapped, low quality or used. For each used record it derives the cross-link, middle and end coordinates and files the hit under (chrom, strand) → position → barcode.
- **Detection in `run`**. For every bucket it merges once, collapses twice (with `multimax` 1 and with the configured `multimax`), and sums the tables key-wise (`_update`).

Python dicts are Dafny maps, hit lists are sequences, and float weights are `real`. The run's `Metrics` object is a class whose counters are updated in place. Code that loops or mutates is modelled as methods with loops. Each method is proved against a specification function of its inputs, for example `ParseBarcode` (barcode extraction), `SortedRanks` and `SortedInts` (sorting), `TargetOf`, `Phase1Of`, `Phase2Of` and `Merging` (merging), `Derive`, `Insert`, `Collect` and `GroupAll` (the record loop), `CollapseAt` (collapsing), `AddAll` (`_update`) and `Totals` (detection). The properties of those functions are proved as lemmas.

Where the program's own documentation and its code disagree, the model follows the code. The module docstring (`iCount/mapping/xlsites.py:49-50`) says that a read which is not split has second start 0. When a segmentation is given, however, the code looks such a read up as well: its largest hole (of size 0) is at index 0, so its candidate is `poss[1]` on `+` or `poss[0]` on `-` (`SecondStarts.WithAnnotation`, `SecondStarts.ContiguousReadLookedUp`).

## Model

| member | source | states |
|---|---|---|
| Barcodes.FindLast | iCount/mapping/xlsites.py:100-102 | `rsplit(sep, 1)` finds the last occurrence of the separator: no later one exists, and none is found only when the separator is absent |
| Barcodes.BeforeColon | iCount/mapping/xlsites.py:100 | `split(':')[0]` is a colon-free prefix of its input, ending right before the first colon if there is one |
| Barcodes.ExplicitTag | iCount/mapping/xlsites.py:99-100 | a name holding `:rbc:` always yields an explicit barcode: the text after its last `:rbc:` up to (not including) the next colon, or to the end when there is none |
| Barcodes.MissingIffNoColon | iCount/mapping/xlsites.py:99-109 | a name yields no barcode at all exactly when it holds no colon |
| Barcodes.ExplicitRoundTrip | iCount/mapping/xlsites.py:99-100 | a name built as `prefix + ":rbc:" + bc`, with no colon in `bc`, gives back `bc`, whatever the prefix holds |
| Barcodes.FallbackRoundTrip | iCount/mapping/xlsites.py:101-106 | an untagged name `prefix + ":" + token` gives back `token` when every character is a valid nucleotide, and is rejected as invalid otherwise |
| Barcodes.GetRandomBarcode | iCount/mapping/xlsites.py:95-111 | returns the barcode the name's extraction yields; `invalidrandomer_recs` rises by one exactly for an invalid token and `norandomer_recs` by one exactly for a name without a colon, so at most one counter changes |
| Barcodes.MatchCount | iCount/mapping/xlsites.py:134 | the number of agreeing zipped pairs is bounded by both lengths |
| Barcodes.MatchCountSymmetric | iCount/mapping/xlsites.py:134 | the number of agreeing pairs does not depend on argument order |
| Barcodes.MatchSymmetric | iCount/mapping/xlsites.py:133-135 | `_match(s1, s2, m)` holds exactly when `_match(s2, s1, m)` does |
| Barcodes.MatchCountFull | iCount/mapping/xlsites.py:134 | the count reaches the shorter length exactly when every zipped pair agrees |
| Barcodes.ExactMatch | iCount/mapping/xlsites.py:133-135 | with no mismatch allowed, two barcodes match exactly when they have equal length and agree at every position (`N` a wildcard, case ignored) |
| Barcodes.LengthPenalty | iCount/mapping/xlsites.py:135 | matching barcodes differ in length by at most `mismatches` |
| Barcodes.MatchReflexive | iCount/mapping/xlsites.py:133-135 | every barcode matches itself when `mismatches` is not negative |
| Barcodes.MatchMonotone | iCount/mapping/xlsites.py:135 | allowing more mismatches never loses a match |
| Barcodes.MatchExamples | iCount/mapping/xlsites.py:133-135 | `AAN`/`AAT` and `aan`/`AAT` match with 0; `AAA`/`AAT` fails with 0 and matches with 1; `AAAA`/`AAA` fails with 0 |
| SecondStarts.Holes | iCount/mapping/xlsites.py:381 | there is one hole per consecutive pair of positions, and none for a read with at most one position |
| SecondStarts.HoleAt | iCount/mapping/xlsites.py:381 | each hole is the number of reference positions skipped between two consecutive aligned positions |
| SecondStarts.MaxOf | iCount/mapping/xlsites.py:383 | `max(holes)` is one of the holes and no hole exceeds it |
| SecondStarts.IndexOf | iCount/mapping/xlsites.py:393 | `holes.index(x)` is the first position holding `x` |
| SecondStarts.GeneSegmentIgnored | iCount/mapping/xlsites.py:361-372 | the `gene_segment` entries never change whether a position starts (on `+`) or stops (on `-`) a segment |
| SecondStarts.WithoutAnnotation | iCount/mapping/xlsites.py:381-391 | without a segmentation the second start is 0, and the read is strange exactly when some gap exceeds `holesize_th` (for a read without gaps, exactly when the threshold is negative) |
| SecondStarts.WithAnnotation | iCount/mapping/xlsites.py:392-404 | with a segmentation, the candidate is the right (on `+`) or left (on `-`) border of the first largest gap; it is returned when a real transcript's segment starts or stops there, otherwise the read is strange and gets 0 |
| SecondStarts.Failures | iCount/mapping/xlsites.py:361-393 | with a segmentation, a read with fewer than two positions raises (`holes.index` on an empty list), and so does a (chrom, strand) missing from the segmentation |
| SecondStarts.StrangeHasNoSecondStart | iCount/mapping/xlsites.py:385-404 | a strange read has second start 0, and a second start kept under a segmentation is confirmed by it |
| SecondStarts.ContiguousReadLookedUp | iCount/mapping/xlsites.py:393-402 | a contiguous read on `+` whose second position starts a segment gets that position as its second start |
| Order.StrLessIrreflexive | iCount/mapping/xlsites.py:224-225 | no string sorts before itself under Python's string order |
| Order.StrLessTransitive | iCount/mapping/xlsites.py:224-225 | Python's string order is transitive |
| Order.StrLessTotal | iCount/mapping/xlsites.py:224-225 | any two distinct strings are ordered one way or the other |
| Order.PrecedesIrreflexive | iCount/mapping/xlsites.py:219-242 | no `(count, barcode)` tuple precedes itself in either sort direction |
| Order.PrecedesTransitive | iCount/mapping/xlsites.py:219-242 | precedence of tuples is transitive in either direction |
| Order.PrecedesTotal | iCount/mapping/xlsites.py:219-242 | two distinct tuples are ordered one way or the other |
| Order.InsertPermutes | iCount/mapping/xlsites.py:219-242 | inserting into a sorted list adds exactly the new tuple |
| Order.InsertOrdered | iCount/mapping/xlsites.py:219-242 | inserting a new tuple into a strictly ordered list keeps it strictly ordered |
| Order.Sorted | iCount/mapping/xlsites.py:241-242 | `sorted(items, reverse=...)` over distinct tuples lists every item exactly once, strictly ascending or strictly descending, and is the one such listing (`SortedRanks`) |
| Order.ListingExists | iCount/mapping/xlsites.py:241-242 | every finite set of tuples has a strictly ordered listing in either direction |
| Order.InsertListing | iCount/mapping/xlsites.py:241-242 | inserting a new tuple into a strictly ordered listing of a set gives a strictly ordered listing of the set plus the tuple |
| Order.ListingUnique | iCount/mapping/xlsites.py:241-242 | two strictly ordered listings of the same tuples are equal, so `sorted` has a single possible result |
| Order.StrictlyOrderedDistinct | iCount/mapping/xlsites.py:242 | a strictly ordered list never repeats an element |
| Order.SortIntsSorts | iCount/mapping/xlsites.py:506 | `sorted(positions)` is ascending and holds the same positions, with multiplicity |
| Order.AscendingUnique | iCount/mapping/xlsites.py:506 | two ascending lists with the same elements are equal, so sorting has a single possible result |
| Order.SortPositions | iCount/mapping/xlsites.py:506 | `poss` is the ascending permutation of the record's positions |
| Grouping.MiddleIndexMirrors | iCount/mapping/xlsites.py:520-529 | the middle index lies within the positions, and counted from the read's 5' end it is the same nucleotide on both strands |
| Grouping.LocateSorted | iCount/mapping/xlsites.py:506-529 | the cross-link is the nucleotide just outside the read's 5' end, the end is its 3' end, and the middle and end are positions of the read |
| Grouping.SortedEnds | iCount/mapping/xlsites.py:506-514 | `poss[0]` and `poss[-1]` are the least and greatest positions of the read |
| Grouping.CollectTally | iCount/mapping/xlsites.py:481-495 | every record is exactly one of unmapped, low quality and used; strange records and degraded barcodes are among the used ones |
| Grouping.CollectErrSticks | iCount/mapping/xlsites.py:497-501 | once a record raises, later records change nothing |
| Grouping.CollectNext | iCount/mapping/xlsites.py:480-540 | a record that does not raise adds its fate to what the loop gathered |
| Grouping.CollectFail | iCount/mapping/xlsites.py:480-540 | a record that raises ends the loop with its exception |
| Grouping.InsertLookup | iCount/mapping/xlsites.py:536-540 | filing one hit appends it to its own (chrom, strand, position, barcode) list and changes no other list |
| Grouping.InsertTidy | iCount/mapping/xlsites.py:536-540 | `setdefault(...).append(...)` never leaves an empty level |
| Grouping.GroupAllSelect | iCount/mapping/xlsites.py:536-540 | every used record's hit sits in exactly the list of its own (chrom, strand), cross-link and barcode, in record order |
| Grouping.GroupAllTidy | iCount/mapping/xlsites.py:536-540 | the hierarchy has no empty level |
| Grouping.GroupAllStep | iCount/mapping/xlsites.py:536-540 | filing one more used record is one more `setdefault(...).append(...)` |
| Grouping.BarcodeCountsExact | iCount/mapping/xlsites.py:503 | `bc_cn` holds exactly the barcodes that occur, each with its number of used records |
| Grouping.BarcodeCountsSum | iCount/mapping/xlsites.py:492-503 | the `bc_cn` counts sum to the number of used records |
| Grouping.DeriveUsed | iCount/mapping/xlsites.py:501-540 | a used record's hit is filed under the barcode its read name yields |
| Grouping.CollectCounts | iCount/mapping/xlsites.py:501-503 | the barcode counter the loop keeps counts the barcodes of the filed hits |
| Grouping.CountRecord | iCount/mapping/xlsites.py:481-503 | the counting part of the loop body screens the record as the source does and leaves the counters of one more record of that fate; a record rejected later still counts as used, and `strange_recs` is untouched |
| Grouping.FileHit | iCount/mapping/xlsites.py:507-540 | a used record's hit is derived, filed under its key and, when strange, its record is noted |
| Grouping.Step | iCount/mapping/xlsites.py:481-540 | one loop iteration raises as the record's fate dictates or keeps counters, hierarchy and strange records in step with it; when it raises, the counters already include the record (as used once it passed the quality screen), the hierarchy and strange list are unchanged, and `strange_recs` is never touched |
| Grouping.CollectSummary | iCount/mapping/xlsites.py:481-503 | at the end of the loop every record is unmapped, low quality or used, `bc_cn` counts the filed barcodes and sums to the used records, and the strange records are among them |
| Grouping.ScanRecords | iCount/mapping/xlsites.py:480-543 | the record loop raises the first exception the records raise, leaving `strange_recs` alone; otherwise it returns the hierarchy of the hits and the strange records, with the counters of the whole run and `strange_recs = len(strange)` |
| Grouping.ProcessRecords | iCount/mapping/xlsites.py:465-543 | the loop raises the first exception the records raise; otherwise it returns the hierarchy of the used records' hits, the strange records, and counters with `all = notmapped + mapped`, `mapped = lowmapq + used`, `sum(bc_cn) = used` and `strange_recs = len(strange)` |
| Counters.Metrics.constructor | iCount/mapping/xlsites.py:465-473 | all counters start at zero and the barcode counter empty |
| Merge.PoolPick | iCount/mapping/xlsites.py:230 | the pool of hits is the hits of any one barcode plus those of the rest |
| Merge.PoolMove | iCount/mapping/xlsites.py:230 | `by_bc[into].extend(by_bc.pop(from))` loses and creates no hit and removes only `from` |
| Merge.PoolReplace | iCount/mapping/xlsites.py:230 | replacing one barcode's hits swaps them in the pool |
| Merge.Assign | iCount/mapping/xlsites.py:224-233 | an ambiguous barcode goes to the matching accepted barcode with the most hits (ties to the greater barcode), and is accepted itself when none matches; the answer is the first match in the descending `sorted` list of accepted barcodes (`TargetOf`) |
| Merge.AmbiguousOrder | iCount/mapping/xlsites.py:207-219 | the sorted `(N-count, barcode)` list names every ambiguous barcode exactly once |
| Merge.Phase1FromStep | iCount/mapping/xlsites.py:219-233 | handling the next ambiguous barcode as the loop does leaves the outcome of the rest of phase 1 (`Phase1From`) unchanged |
| Merge.Phase1Step | iCount/mapping/xlsites.py:219-233 | assigning the next ambiguous barcode keeps the phase-1 invariant |
| Merge.Phase1Accept | iCount/mapping/xlsites.py:232-233 | an unmatched ambiguous barcode joins the accepted set |
| Merge.Phase1Move | iCount/mapping/xlsites.py:227-231 | a matched ambiguous barcode hands its hits to its match and disappears |
| Merge.AssignAmbiguous | iCount/mapping/xlsites.py:204-233 | the result is exactly phase 1 as defined by `Phase1Of` (ambiguous barcodes in ascending `(N-count, barcode)` order, each moved to its `TargetOf` or accepted); every barcode is then accepted, no unambiguous barcode has gone, no hit is lost or created, survivors keep their hits first, and an already merged bucket is unchanged |
| Merge.AbsorbMatch | iCount/mapping/xlsites.py:246-248 | a later-ranked match hands its hits to the current barcode |
| Merge.AbsorbSkip | iCount/mapping/xlsites.py:245-246 | a later-ranked barcode that does not match is left alone |
| Merge.PivotHitsStart | iCount/mapping/xlsites.py:245 | before the inner loop the current barcode holds its own hits and nothing else |
| Merge.PivotHitsMatch | iCount/mapping/xlsites.py:246-248 | absorbing a later-ranked match appends exactly that barcode's hits to the current one |
| Merge.PivotHitsSkip | iCount/mapping/xlsites.py:245-246 | a later-ranked barcode that does not match adds nothing to the current one |
| Merge.HitsInSplit | iCount/mapping/xlsites.py:245-248 | the hits gathered over a stretch of the ranking are those of its first part followed by those of the rest |
| Merge.HitsInNone | iCount/mapping/xlsites.py:245-248 | a stretch of the ranking with no selected barcode gathers no hit |
| Merge.HitsInSame | iCount/mapping/xlsites.py:245-248 | two selections that agree on a stretch of the ranking gather the same hits there |
| Merge.AbsorbAt | iCount/mapping/xlsites.py:245-248 | one step of the inner loop keeps the absorption invariant and the hits gathered so far, and conserves the pool |
| Merge.Absorb | iCount/mapping/xlsites.py:245-248 | every barcode ranked after the current one that matches it hands its hits over, and the current barcode ends with its own hits followed by theirs in ranking order; no hit is lost |
| Merge.SortedLists | iCount/mapping/xlsites.py:241-242 | the descending ranking lists each barcode exactly once |
| Merge.LaterIsLower | iCount/mapping/xlsites.py:242-245 | a later position in the ranking means a lower `(len(hits), barcode)` rank |
| Merge.NothingLeftIsMerged | iCount/mapping/xlsites.py:243-250 | a pass that finds no matching pair leaves a state in which no two barcodes match |
| Merge.PivotIsHighest | iCount/mapping/xlsites.py:244-250 | the barcode a pass merges into is the highest-ranked one that has a lower-ranked match, and exactly those matches disappear |
| Merge.HigherHaveNone | iCount/mapping/xlsites.py:244-250 | barcodes ranked above the pivot have no lower-ranked match |
| Merge.PassStep | iCount/mapping/xlsites.py:244-250 | trying the next barcode keeps the pass invariant |
| Merge.PassUnmerged | iCount/mapping/xlsites.py:243-250 | a pass that merged nothing changed nothing and saw a merged state |
| Merge.PassMerged | iCount/mapping/xlsites.py:244-250 | a merging pass removed at least one barcode: exactly the pivot's lower-ranked matches |
| Merge.FirstPivotNone | iCount/mapping/xlsites.py:243-250 | when no barcode from a place in the ranking on has a lower-ranked match, no pivot is found from there |
| Merge.FirstPivotAt | iCount/mapping/xlsites.py:244-250 | the first barcode with a lower-ranked match, counted from a place in the ranking, is the pivot found from there |
| Merge.MergedNoPivot | iCount/mapping/xlsites.py:243-250 | a bucket with no two matching barcodes has no pivot, and phase 2 leaves it unchanged |
| Merge.PivotGathered | iCount/mapping/xlsites.py:245-248 | the hits of the pivot's lower-ranked matches, gathered along the whole ranking, are the hits of its matches listed after it |
| Merge.PivotFirst | iCount/mapping/xlsites.py:244-250 | the pivot a pass stops at is `PivotOf` the bucket |
| Merge.AbsorbedIs | iCount/mapping/xlsites.py:245-250 | the bucket a merging pass leaves is `Absorbed`: the lower-ranked matches removed and their hits appended to the pivot's in ranking order |
| Merge.MergedInto | iCount/mapping/xlsites.py:230-248 | a map that lost exactly some keys and extended one value is the corresponding map update |
| Merge.PassAbsorbed | iCount/mapping/xlsites.py:244-250 | a pass that merged found `PivotOf` the bucket and left `Absorbed` of it |
| Merge.AbsorbedShrinks | iCount/mapping/xlsites.py:244-250 | an absorbing pass keeps the pivot, removes exactly its lower-ranked matches, and so shrinks the bucket, which makes phase 2 terminate |
| Merge.PivotAbsorbed | iCount/mapping/xlsites.py:244-250 | the highest-ranked barcode with a lower-ranked match, once it has absorbed exactly those matches, is `PivotOf` the bucket and leaves `Absorbed` of it |
| Merge.PassOutcome | iCount/mapping/xlsites.py:240-250 | a finished pass either merged nothing, over a merged bucket with no pivot, or found `PivotOf` the bucket, removed exactly its lower-ranked matches and left `Absorbed` of it |
| Merge.MergePass | iCount/mapping/xlsites.py:240-250 | one pass conserves the hits; it either leaves a merged state (no pivot) untouched or returns exactly `Absorbed` for the bucket's `PivotOf`, leaving every other barcode as it was |
| Merge.MergeMatching | iCount/mapping/xlsites.py:238-250 | phase 2 terminates with exactly `Phase2Of` its input (passes of `Absorbed` until no pivot is left), with no two barcodes matching, every hit kept, only barcodes removed, and a merged bucket unchanged |
| Merge.PassKeepsPrefixes | iCount/mapping/xlsites.py:248 | each surviving barcode still starts with its original hits after a pass |
| Merge.PrefixesCompose | iCount/mapping/xlsites.py:230-248 | a barcode that starts with its original hits after each phase still does after both |
| Merge.MergeOfPhases | iCount/mapping/xlsites.py:204-250 | phase 1 followed by phase 2 meets every promise of `_merge_similar_randomers` and gives exactly `Merging` |
| Merge.MergeSimilarRandomers | iCount/mapping/xlsites.py:160-250 | the merged bucket is exactly `Merging` (phase 2 applied to phase 1); it keeps every hit, only loses barcodes, lets each survivor keep its own hits first, has no two matching barcodes, and equals its input when that was already merged (so a second call changes nothing) |
| Tables.SumNatIncrement | iCount/mapping/xlsites.py:503 | `d[k] = d.get(k, 0) + 1` raises the sum of the counter by exactly one |
| Tables.AddAllNothing | iCount/mapping/xlsites.py:155-157 | adding an empty table changes nothing |
| Tables.AddAllStep | iCount/mapping/xlsites.py:155-157 | adding one more entry of `to_add` is one key-wise addition |
| Tables.AddAllBounded | iCount/mapping/xlsites.py:155-157 | key-wise addition keeps every entry with at least one read and a cDNA weight in (0, reads] |
| Tables.KeywiseIsAddAll | iCount/mapping/xlsites.py:155-157 | a table holding the entry-wise sum at every key of either input is the key-wise sum |
| Tables.Update | iCount/mapping/xlsites.py:138-157 | `_update` adds each entry of `to_add` to the old entry (zeros when absent), keeps every other entry, and adds no other key |
| Collapse.Filter | iCount/mapping/xlsites.py:330-332 | a second-start group holds only hits of the barcode with that second start |
| Collapse.GroupLenCovers | iCount/mapping/xlsites.py:337 | an eligible hit's read length is part of its group's eligible length |
| Collapse.SecondStartsExact | iCount/mapping/xlsites.py:330-332 | the second starts of a barcode are exactly those its hits carry |
| Collapse.FilterAbsent | iCount/mapping/xlsites.py:330-332 | a second start no hit carries has an empty group |
| Collapse.FilterInEvery | iCount/mapping/xlsites.py:330-334 | the groups of all second starts together hold every hit |
| Collapse.FilterInNone | iCount/mapping/xlsites.py:334 | no group visited means no hit visited |
| Collapse.SumOfSplit | iCount/mapping/xlsites.py:334 | the order in which groups are visited does not change the sum |
| Collapse.SeparateBySecondStart | iCount/mapping/xlsites.py:330-332 | `ss_groups` has a key for each second start that occurs, holding its hits in their original order |
| Collapse.SeparateAt | iCount/mapping/xlsites.py:331-332 | filing one more hit keeps the groups exact for the hits seen so far |
| Collapse.SeparateKeys | iCount/mapping/xlsites.py:332 | filing a hit adds its second start to the keys |
| Collapse.SeparateStep | iCount/mapping/xlsites.py:332 | appending a hit to its group keeps every group exact |
| Collapse.WeightInUnit | iCount/mapping/xlsites.py:343 | every weight lies in (0, 1] |
| Collapse.AddedBounded | iCount/mapping/xlsites.py:345-347 | adding a weight in (0, 1] and one read keeps every entry bounded |
| Collapse.CountedHit | iCount/mapping/xlsites.py:339-347 | an eligible hit adds its weight and one read at its reported position and nothing elsewhere |
| Collapse.AddHit | iCount/mapping/xlsites.py:339-347 | visiting one more hit adds its share at every position |
| Collapse.SkipHit | iCount/mapping/xlsites.py:340-341 | a hit mapped to more than `multimax` places adds nothing |
| Collapse.VisitFirstSum | iCount/mapping/xlsites.py:339-347 | after visiting part of a group, the table holds what those hits add |
| Collapse.VisitFirstBounded | iCount/mapping/xlsites.py:339-347 | visiting hits keeps every entry bounded |
| Collapse.AddGroup | iCount/mapping/xlsites.py:334-347 | the loop over one group's hits visits each of them once, in order |
| Collapse.DoneAtAdd | iCount/mapping/xlsites.py:327 | counting one more barcode adds what that barcode contributes |
| Collapse.CountedNone | iCount/mapping/xlsites.py:325 | the empty table counts no barcode |
| Collapse.CountedAdd | iCount/mapping/xlsites.py:327-347 | processing one more barcode keeps the table equal to what the processed barcodes add |
| Collapse.GroupsNone | iCount/mapping/xlsites.py:334 | before any group, nothing is added |
| Collapse.GroupAdded | iCount/mapping/xlsites.py:334-347 | one more group adds its hits, whatever the order of the groups |
| Collapse.GroupsAll | iCount/mapping/xlsites.py:334 | once every second start has been visited, every hit has been |
| Collapse.CollapseBarcode | iCount/mapping/xlsites.py:327-347 | one barcode's pass adds what each of its hits contributes and keeps entries bounded |
| Collapse.Collapse | iCount/mapping/xlsites.py:253-349 | the table holds at every position exactly what the eligible hits of all barcodes add there, and every entry has at least one read and a cDNA weight in (0, reads] |
| CollapseFacts.SumOfReads | iCount/mapping/xlsites.py:346 | the reads added by a list of hits are the number of its eligible hits reporting at the position |
| CollapseFacts.BarcodeReads | iCount/mapping/xlsites.py:339-347 | each eligible hit adds exactly one read at its reported position, and ineligible hits add none |
| CollapseFacts.ReadsAtMono | iCount/mapping/xlsites.py:340-341 | counting only uniquely mapped hits never counts more reads |
| CollapseFacts.CollapseAtMono | iCount/mapping/xlsites.py:340-341 | `_collapse` with `multimax` 1 reports no more reads at any position than with a larger `multimax` |
| CollapseFacts.SumOfElsewhere | iCount/mapping/xlsites.py:342 | with `group_by = 'start'`, no hit adds anything away from the cross-link |
| CollapseFacts.StartElsewhere | iCount/mapping/xlsites.py:342 | with `group_by = 'start'`, `_collapse` reports zeros away from the cross-link |
| CollapseFacts.StartOnlyKey | iCount/mapping/xlsites.py:322-349 | with `group_by = 'start'` the only possible key of the result is the cross-link position |
| CollapseFacts.EligibleWitness | iCount/mapping/xlsites.py:337 | a positive eligible length has an eligible hit behind it |
| CollapseFacts.GroupLenPositive | iCount/mapping/xlsites.py:337 | a group's eligible length is positive exactly when it has an eligible hit |
| CollapseFacts.NmLengthBound | iCount/mapping/xlsites.py:343 | each eligible hit counts `read_len / num_mapped`, at most its length and the whole of it with a single alignment |
| CollapseFacts.WeightSplit | iCount/mapping/xlsites.py:343 | `read_len / (num_mapped × len)` is `(read_len / num_mapped) / len` |
| CollapseFacts.WeightSumRatio | iCount/mapping/xlsites.py:337-343 | the weights of a group's eligible hits add up to `Σ(read_len / num_mapped) / Σ read_len` |
| CollapseFacts.ShareAtStart | iCount/mapping/xlsites.py:340-343 | with `group_by = 'start'`, one hit adds its weight at the cross-link when eligible, and nothing otherwise |
| CollapseFacts.GroupCdna | iCount/mapping/xlsites.py:337-347 | with `group_by = 'start'`, a group's hits add the sum of their weights at the cross-link, and nothing when the group has no eligible length |
| CollapseFacts.GroupCdnaTotal | iCount/mapping/xlsites.py:337-347 | with `group_by = 'start'`, one second-start group adds at most one cDNA at the cross-link, none without an eligible hit, and exactly one with one when `multimax` is 1 |
| CollapseFacts.StartsCdna | iCount/mapping/xlsites.py:334-347 | with `group_by = 'start'`, a set of groups adds at most one cDNA per group with an eligible hit at the cross-link, and exactly one each when `multimax` is 1 |
| CollapseFacts.OneCdnaPerStart | iCount/mapping/xlsites.py:327-347 | with `group_by = 'start'`, a barcode adds at most one cDNA per second start with an eligible hit, and exactly one per such second start when `multimax` is 1 |
| Aggregate.PoolHolds | iCount/mapping/xlsites.py:230 | a hit is in the pool exactly when some barcode holds it |
| Aggregate.MergeKeepsWellFormed | iCount/mapping/xlsites.py:230-248 | merging only moves hits, so a bucket the collapse can weigh stays one |
| Aggregate.GetAddAll | iCount/mapping/xlsites.py:156-157 | a key-wise sum holds at every position the sum of both entries, a missing entry counting as zeros |
| Aggregate.TotalsNone | iCount/mapping/xlsites.py:642-643 | the empty tables are the totals of no bucket |
| Aggregate.TotalAtAdd | iCount/mapping/xlsites.py:644-651 | one more bucket adds what it reports to the total at every position |
| Aggregate.ReportMapAdd | iCount/mapping/xlsites.py:644-651 | the reports of one more bucket extend the reports by that bucket's collapse |
| Aggregate.TotalsAdd | iCount/mapping/xlsites.py:644-651 | `_update` with one more bucket's collapse keeps the table equal to the totals |
| Aggregate.ScoredNone | iCount/mapping/xlsites.py:642-643 | nothing scored yet |
| Aggregate.MergedAdd | iCount/mapping/xlsites.py:646 | one more bucket merged in place |
| Aggregate.ScoredAdd | iCount/mapping/xlsites.py:648-651 | both tables stay the bounded totals of the merged buckets after one more bucket |
| Aggregate.DetectPosition | iCount/mapping/xlsites.py:644-651 | one position: the bucket is merged to exactly `Merging` of it, then both collapsed tables report exactly what the merged bucket adds with `multimax` 1 and with `multimax` |
| Aggregate.DetectStep | iCount/mapping/xlsites.py:644-651 | one iteration over positions adds the position, with its bucket merged to exactly `Merging`, to the merged buckets and its collapses to both tables |
| Aggregate.DetectBucket | iCount/mapping/xlsites.py:642-654 | for one (chrom, strand), every bucket is replaced by exactly `Merging` of it and the unique and multi tables hold at each position the sum over merged buckets of what `_collapse` reports there |
| Aggregate.TotalAtMono | iCount/mapping/xlsites.py:647-651 | summed over positions, `multimax` 1 reports no more reads than a larger `multimax` |
| Aggregate.UniqueWithinMulti | iCount/mapping/xlsites.py:642-654 | the unique table never holds more reads than the multi table at a position, and has no position the multi table lacks |
| Aggregate.Detect | iCount/mapping/xlsites.py:634-654 | every (chrom, strand) of the hierarchy gets its merged buckets and its unique and multi tables, as `DetectBucket` describes |

## Left out

- Reading the alignment file through pysam, and writing the strange reads to a BAM file: records are an input sequence of `Record` values and the strange records are returned.
- The record's chrom is given as `refName`; the lookup `bamfile.references[r.tid]` is not part of this model.
- Preparing the segmentation (`_prepare_annotation`) and saving the BED files (`save_dict`, the `quant` column choice) are calls whose code is not part of this model. The segmentation is an input map, and the output is the pair of tables.
- Logging, the top-10 barcode report and progress reporting: they only report on the run.
- The assertions on file suffixes and option strings in `run`: `group_by` is the `GroupBy` datatype, and `quant` only selects an output column.
- The `_cache_bcs` interning of barcode strings: it saves memory and does not change any value.
- Float rounding: weights are exact `real` numbers, so the order of accumulation does not matter in the model.
- Upper-casing is modelled for ASCII letters only.
- In-place mutation of `by_bc` in `_merge_similar_randomers` and of `cur_vals` in `_update` is modelled by returning the new value; `run` keeps the merged buckets as the `merged` result, and aliasing is not modelled.
- Dictionary iteration order is not modelled: the source iterates sorted lists where order matters (merging), and elsewhere sums commute.
- `_second_start` returns the strange flag instead of appending to the caller's list; the record loop appends the record (`Grouping.FileHit`).
- The barcode is computed once by `Barcodes.GetRandomBarcode` for the counters and once by the pure extraction for the filed hit; both are the same function of the read name (`Grouping.DeriveUsed`).
- Collapse.Collapse: requires every hit to have `num_mapped >= 1` and `read_len >= 1`; the source's division by zero for a group of zero eligible length, and negative weights for non-positive NH values, are not modelled. DetectPosition, DetectBucket and Detect inherit this precondition.
- Grouping.ProcessRecords: on the error path its own contract does not state the counters; `Grouping.Step` states them for the record that raises, but the loop's contract does not carry them to the whole run.
- CollapseFacts.OneCdnaPerStart: the cDNA bound is stated for `group_by = 'start'` only, where every hit of a barcode reports at the cross-link; under `'middle'` or `'end'` a group's weight is spread over several positions and its one-cDNA total is not proved.
- CollapseFacts.GroupCdnaTotal: the per-group cDNA bound is stated for `group_by = 'start'` only, for the same reason as `OneCdnaPerStart`.
- CollapseFacts.StartsCdna: the one-cDNA-per-group bound over a set of groups is stated for `group_by = 'start'` only, for the same reason as `OneCdnaPerStart`.
- CollapseFacts.ShareAtStart and CollapseFacts.GroupCdna: stated for `group_by = 'start'`, the grouping their results are used for.
