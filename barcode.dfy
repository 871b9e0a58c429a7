/** Random barcodes: extracting one from a read name, and the mismatch-tolerant
    comparison used to merge barcodes at one cross-link position. */
module Barcodes {
  import opened Types
  import opened Counters

  // ---------------------------------------------------------------------------
  // Searching a read name

  /** `pat` occurs in `s` starting at index `i`. */
  predicate OccursAt(s: string, pat: string, i: int)
  {
    0 <= i && i + |pat| <= |s| && s[i..i + |pat|] == pat
  }

  predicate Contains(s: string, pat: string)
  {
    exists i :: 0 <= i <= |s| && OccursAt(s, pat, i)
  }

  /** `s.rfind(pat)`: the start of the last occurrence, if there is one. */
  function FindLast(s: string, pat: string): (r: Option<nat>)
    ensures r.Some? ==> OccursAt(s, pat, r.value)
    ensures r.Some? ==> forall j :: r.value < j ==> !OccursAt(s, pat, j)
    ensures r.None? ==> !Contains(s, pat)
    decreases |s|
  {
    if |s| < |pat| then None
    else if s[|s| - |pat|..] == pat then Some(|s| - |pat|)
    else
      var r := FindLast(s[..|s| - 1], pat);
      assert forall j :: OccursAt(s, pat, j) && j + |pat| < |s| ==> OccursAt(s[..|s| - 1], pat, j) by {
        forall j | OccursAt(s, pat, j) && j + |pat| < |s| ensures OccursAt(s[..|s| - 1], pat, j) {
          assert s[..|s| - 1][j..j + |pat|] == s[j..j + |pat|];
        }
      }
      assert forall j :: OccursAt(s[..|s| - 1], pat, j) ==> OccursAt(s, pat, j) by {
        forall j | OccursAt(s[..|s| - 1], pat, j) ensures OccursAt(s, pat, j) {
          assert s[..|s| - 1][j..j + |pat|] == s[j..j + |pat|];
        }
      }
      r
  }

  /** `s.split(':')[0]`: everything before the first colon (all of `s` if none). */
  function BeforeColon(s: string): (r: string)
    ensures r <= s
    ensures ':' !in r
    ensures |r| < |s| ==> s[|r|] == ':'
  {
    if |s| == 0 || s[0] == ':' then []
    else [s[0]] + BeforeColon(s[1..])
  }

  // ---------------------------------------------------------------------------
  // Barcode extraction

  const RbcTag := ":rbc:"

  /** `VALID_NUCLEOTIDES`. */
  predicate ValidNucleotide(c: char)
  {
    c == 'A' || c == 'T' || c == 'C' || c == 'G' || c == 'N'
  }

  /** How a barcode was obtained from a read name. */
  datatype Extraction =
    | Explicit(bc: string)   // text after the last ":rbc:", up to the next ':'
    | Fallback(bc: string)   // last ':'-separated token, made of valid nucleotides
    | Invalid                // last token holds some other character
    | Missing                // no ':' at all

  function Barcode(e: Extraction): string
  {
    if e.Explicit? || e.Fallback? then e.bc else ""
  }

  /** The decision `_get_random_barcode` takes on a read name. */
  function ParseBarcode(name: string): Extraction
  {
    match FindLast(name, RbcTag)
    case Some(i) => Explicit(BeforeColon(name[i + |RbcTag|..]))
    case None =>
      match FindLast(name, ":")
      case Some(i) =>
        var token := name[i + 1..];
        if forall c :: c in token ==> ValidNucleotide(c) then Fallback(token) else Invalid
      case None => Missing
  }

  /** An explicit tag wins whenever it is present, and its barcode is the text
      right after the last tag, up to (not including) the next colon. */
  lemma ExplicitTag(name: string)
    requires Contains(name, RbcTag)
    ensures ParseBarcode(name).Explicit?
    ensures exists i :: OccursAt(name, RbcTag, i) && (forall j :: i < j ==> !OccursAt(name, RbcTag, j))
                        && ParseBarcode(name).bc <= name[i + 5..]
                        && ':' !in ParseBarcode(name).bc
                        && (|ParseBarcode(name).bc| < |name[i + 5..]| ==> name[i + 5 + |ParseBarcode(name).bc|] == ':')
  {
    var i := FindLast(name, RbcTag).value;
    assert OccursAt(name, RbcTag, i);
  }

  /** A name without any colon carries no barcode; every name with a colon but
      no tag yields its last colon-separated token or is rejected as invalid. */
  lemma MissingIffNoColon(name: string)
    ensures ParseBarcode(name).Missing? <==> !Contains(name, ":")
  {
    if Contains(name, ":") {
      var i :| 0 <= i <= |name| && OccursAt(name, ":", i);
      if FindLast(name, RbcTag).None? {
        assert FindLast(name, ":").Some?;
      }
    } else if Contains(name, RbcTag) {
      var i :| 0 <= i <= |name| && OccursAt(name, RbcTag, i);
      assert name[i..i + 5][0] == ':';
      assert OccursAt(name, ":", i);
    }
  }

  /** A name built as `prefix + ":rbc:" + bc` (with no colon in `bc`) gives
      `bc` back. */
  lemma ExplicitRoundTrip(prefix: string, bc: string)
    requires ':' !in bc
    ensures ParseBarcode(prefix + RbcTag + bc) == Explicit(bc)
  {
    var name := prefix + RbcTag + bc;
    var k := |prefix|;
    assert OccursAt(name, RbcTag, k) by {
      assert name[k..k + 5] == RbcTag;
    }
    forall j | j > k
      ensures !OccursAt(name, RbcTag, j)
    {
      NoTagAfter(prefix, bc, j);
    }
    var i := FindLast(name, RbcTag).value;
    assert i == k;
    assert name[i + 5..] == bc;
  }

  /** No tag starts after the one in `prefix + ":rbc:" + bc`: its last
      character, a colon, would lie inside `bc`. */
  lemma NoTagAfter(prefix: string, bc: string, j: int)
    requires ':' !in bc
    requires j > |prefix|
    ensures !OccursAt(prefix + RbcTag + bc, RbcTag, j)
  {
    var name := prefix + RbcTag + bc;
    var k := |prefix|;
    if j + 5 <= |name| {
      assert name[j + 4] == bc[j + 4 - k - 5];
      assert name[j..j + 5][4] != RbcTag[4];
    }
  }

  /** No colon comes after the last one of `prefix + ":" + token`. */
  lemma NoColonAfter(prefix: string, token: string, j: int)
    requires ':' !in token
    requires j > |prefix|
    ensures !OccursAt(prefix + ":" + token, ":", j)
  {
    var name := prefix + ":" + token;
    if j + 1 <= |name| {
      assert name[j] == token[j - |prefix| - 1];
      assert name[j..j + 1][0] != ':';
    }
  }

  /** An untagged name `prefix + ":" + token` gives `token` back when it is
      made of valid nucleotides, and is rejected as invalid otherwise. */
  lemma FallbackRoundTrip(prefix: string, token: string)
    requires !Contains(prefix + ":" + token, RbcTag)
    requires ':' !in token
    ensures ParseBarcode(prefix + ":" + token) ==
            (if forall c :: c in token ==> ValidNucleotide(c) then Fallback(token) else Invalid)
  {
    var name := prefix + ":" + token;
    var k := |prefix|;
    assert OccursAt(name, ":", k) by {
      assert name[k..k + 1] == ":";
    }
    forall j | j > k
      ensures !OccursAt(name, ":", j)
    {
      NoColonAfter(prefix, token, j);
    }
    var i := FindLast(name, ":").value;
    assert i == k;
    assert name[i + 1..] == token;
  }

  /** `_get_random_barcode`: returns the barcode of the read name and counts a
      degraded extraction in `metrics` (at most one counter, by exactly one). */
  method GetRandomBarcode(name: string, metrics: Metrics) returns (bc: string)
    modifies metrics`invalidrandomerRecs, metrics`norandomerRecs
    ensures bc == Barcode(ParseBarcode(name))
    ensures metrics.invalidrandomerRecs == old(metrics.invalidrandomerRecs) + (if ParseBarcode(name).Invalid? then 1 else 0)
    ensures metrics.norandomerRecs == old(metrics.norandomerRecs) + (if ParseBarcode(name).Missing? then 1 else 0)
  {
    var tag := FindLast(name, RbcTag);
    if tag.Some? {
      bc := BeforeColon(name[tag.value + |RbcTag|..]);
    } else {
      var colon := FindLast(name, ":");
      if colon.Some? {
        bc := name[colon.value + 1..];
        if exists c :: c in bc && !ValidNucleotide(c) {
          bc := "";
          metrics.invalidrandomerRecs := metrics.invalidrandomerRecs + 1;
        }
      } else {
        bc := "";
        metrics.norandomerRecs := metrics.norandomerRecs + 1;
      }
    }
  }

  // ---------------------------------------------------------------------------
  // Barcode matching

  /** `str.upper()` on ASCII letters. */
  function Upper(c: char): char
  {
    if 'a' <= c <= 'z' then (c as int - 32) as char else c
  }

  /** One zipped character pair counts as matching: after upper-casing, either
      is the wildcard 'N' or they are equal. */
  predicate Agree(c1: char, c2: char)
  {
    Upper(c1) == 'N' || Upper(c2) == 'N' || Upper(c1) == Upper(c2)
  }

  /** `cn`: the number of agreeing pairs in `zip(s1, s2)`. */
  function MatchCount(s1: string, s2: string): (n: nat)
    ensures n <= |s1| && n <= |s2|
  {
    if |s1| == 0 || |s2| == 0 then 0
    else (if Agree(s1[0], s2[0]) then 1 else 0) + MatchCount(s1[1..], s2[1..])
  }

  function Max(a: int, b: int): int
  {
    if a < b then b else a
  }

  /** `_match(s1, s2, mismatches)`. */
  predicate Match(s1: string, s2: string, mismatches: int)
  {
    Max(|s1|, |s2|) - MatchCount(s1, s2) <= mismatches
  }

  lemma {:induction false} MatchCountSymmetric(s1: string, s2: string)
    ensures MatchCount(s1, s2) == MatchCount(s2, s1)
  {
    if |s1| > 0 && |s2| > 0 {
      MatchCountSymmetric(s1[1..], s2[1..]);
    }
  }

  /** The comparison does not depend on the order of its arguments. */
  lemma MatchSymmetric(s1: string, s2: string, mismatches: int)
    ensures Match(s1, s2, mismatches) <==> Match(s2, s1, mismatches)
  {
    MatchCountSymmetric(s1, s2);
  }

  /** Every zipped pair agrees exactly when all of the shorter string matches. */
  lemma {:induction false} MatchCountFull(s1: string, s2: string)
    ensures MatchCount(s1, s2) == (if |s1| < |s2| then |s1| else |s2|)
        <==> forall i :: 0 <= i < |s1| && i < |s2| ==> Agree(s1[i], s2[i])
  {
    if |s1| > 0 && |s2| > 0 {
      MatchCountFull(s1[1..], s2[1..]);
      if forall i :: 0 <= i < |s1| && i < |s2| ==> Agree(s1[i], s2[i]) {
        assert forall i :: 0 <= i < |s1| - 1 && i < |s2| - 1 ==> Agree(s1[1..][i], s2[1..][i]) by {
          forall i | 0 <= i < |s1| - 1 && i < |s2| - 1 ensures Agree(s1[1..][i], s2[1..][i]) {
            assert Agree(s1[i + 1], s2[i + 1]);
          }
        }
      } else {
        var i :| 0 <= i < |s1| && i < |s2| && !Agree(s1[i], s2[i]);
        if i > 0 {
          assert !Agree(s1[1..][i - 1], s2[1..][i - 1]);
        }
      }
    }
  }

  /** With no mismatch allowed, two barcodes match exactly when they have the
      same length and every position agrees. */
  lemma ExactMatch(s1: string, s2: string)
    ensures Match(s1, s2, 0) <==> |s1| == |s2| && forall i :: 0 <= i < |s1| ==> Agree(s1[i], s2[i])
  {
    MatchCountFull(s1, s2);
  }

  /** A difference in length is paid for in mismatches. */
  lemma LengthPenalty(s1: string, s2: string, mismatches: int)
    requires Match(s1, s2, mismatches)
    ensures |s1| - |s2| <= mismatches && |s2| - |s1| <= mismatches
  {
  }

  lemma {:induction false} MatchCountSelf(s: string)
    ensures MatchCount(s, s) == |s|
  {
    if |s| > 0 {
      MatchCountSelf(s[1..]);
    }
  }

  /** Every barcode matches itself when mismatches are not negative. */
  lemma MatchReflexive(s: string, mismatches: int)
    requires mismatches >= 0
    ensures Match(s, s, mismatches)
  {
    MatchCountSelf(s);
  }

  /** Allowing more mismatches never loses a match. */
  lemma MatchMonotone(s1: string, s2: string, m: int, m': int)
    requires Match(s1, s2, m) && m <= m'
    ensures Match(s1, s2, m')
  {
  }

  /** 'N' is a wildcard, in either case; one differing base costs one mismatch. */
  lemma MatchExamples()
    ensures Match("AAN", "AAT", 0)
    ensures Match("aan", "AAT", 0)
    ensures !Match("AAA", "AAT", 0)
    ensures Match("AAA", "AAT", 1)
    ensures !Match("AAAA", "AAA", 0)
  {
    assert MatchCount("AAN", "AAT") == 3 by {
      assert "AAN"[1..] == "AN" && "AAT"[1..] == "AT";
      assert "AN"[1..] == "N" && "AT"[1..] == "T";
    }
    assert MatchCount("aan", "AAT") == 3 by {
      assert "aan"[1..] == "an" && "AAT"[1..] == "AT";
      assert "an"[1..] == "n" && "AT"[1..] == "T";
    }
    assert MatchCount("AAA", "AAT") == 2 by {
      assert "AAA"[1..] == "AA" && "AAT"[1..] == "AT";
      assert "AA"[1..] == "A" && "AT"[1..] == "T";
    }
  }
}
