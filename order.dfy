/** Python's orderings as the core uses them: `<` on strings (code point by code
    point), `<` on (int, str) tuples, and `sorted(...)` over such tuples and over ints. */
module Order {

  /** Python's `a < b` on str: the first differing character decides; a proper
      prefix comes first. */
  predicate StrLess(a: string, b: string)
  {
    if |b| == 0 then false
    else if |a| == 0 then true
    else if a[0] != b[0] then a[0] < b[0]
    else StrLess(a[1..], b[1..])
  }

  lemma {:induction false} StrLessIrreflexive(a: string)
    ensures !StrLess(a, a)
  {
    if |a| > 0 {
      StrLessIrreflexive(a[1..]);
    }
  }

  lemma {:induction false} StrLessTransitive(a: string, b: string, c: string)
    requires StrLess(a, b) && StrLess(b, c)
    ensures StrLess(a, c)
  {
    if |a| > 0 && a[0] == b[0] && b[0] == c[0] {
      StrLessTransitive(a[1..], b[1..], c[1..]);
    }
  }

  lemma {:induction false} StrLessTotal(a: string, b: string)
    requires a != b
    ensures StrLess(a, b) || StrLess(b, a)
  {
    if |a| > 0 && |b| > 0 && a[0] == b[0] {
      assert a == [a[0]] + a[1..] && b == [b[0]] + b[1..];
      StrLessTotal(a[1..], b[1..]);
    }
  }

  /** A `(key, barcode)` tuple, the sort key the merger ranks barcodes by. */
  datatype Rank = Rank(key: int, bc: string)

  /** Python's `<` on two-element tuples. */
  predicate RankLess(x: Rank, y: Rank)
  {
    x.key < y.key || (x.key == y.key && StrLess(x.bc, y.bc))
  }

  /** `x` comes strictly before `y` in `sorted(..., reverse=reverse)`. */
  predicate Precedes(x: Rank, y: Rank, reverse: bool)
  {
    if reverse then RankLess(y, x) else RankLess(x, y)
  }

  lemma PrecedesIrreflexive(x: Rank, reverse: bool)
    ensures !Precedes(x, x, reverse)
  {
    StrLessIrreflexive(x.bc);
  }

  lemma PrecedesTransitive(x: Rank, y: Rank, z: Rank, reverse: bool)
    requires Precedes(x, y, reverse) && Precedes(y, z, reverse)
    ensures Precedes(x, z, reverse)
  {
    if reverse {
      if z.key == y.key && y.key == x.key { StrLessTransitive(z.bc, y.bc, x.bc); }
    } else {
      if x.key == y.key && y.key == z.key { StrLessTransitive(x.bc, y.bc, z.bc); }
    }
  }

  lemma PrecedesTotal(x: Rank, y: Rank, reverse: bool)
    requires x != y
    ensures Precedes(x, y, reverse) || Precedes(y, x, reverse)
  {
    if x.key == y.key { StrLessTotal(x.bc, y.bc); }
  }

  predicate StrictlyOrdered(s: seq<Rank>, reverse: bool)
  {
    forall i, j :: 0 <= i < j < |s| ==> Precedes(s[i], s[j], reverse)
  }

  /** Inserts `x` before the first element it precedes. */
  function Insert(x: Rank, s: seq<Rank>, reverse: bool): seq<Rank>
  {
    if |s| == 0 || Precedes(x, s[0], reverse) then [x] + s
    else [s[0]] + Insert(x, s[1..], reverse)
  }

  lemma {:induction false} InsertPermutes(x: Rank, s: seq<Rank>, reverse: bool)
    ensures multiset(Insert(x, s, reverse)) == multiset(s) + multiset{x}
  {
    if |s| > 0 && !Precedes(x, s[0], reverse) {
      InsertPermutes(x, s[1..], reverse);
      assert s == [s[0]] + s[1..];
    }
  }

  lemma {:induction false} InsertOrdered(x: Rank, s: seq<Rank>, reverse: bool)
    requires StrictlyOrdered(s, reverse) && x !in s
    ensures StrictlyOrdered(Insert(x, s, reverse), reverse)
  {
    if |s| == 0 {
    } else if Precedes(x, s[0], reverse) {
      forall j | 0 < j < |s|
        ensures Precedes(x, s[j], reverse)
      {
        PrecedesTransitive(x, s[0], s[j], reverse);
      }
    } else {
      PrecedesTotal(x, s[0], reverse);
      var rest := Insert(x, s[1..], reverse);
      InsertOrdered(x, s[1..], reverse);
      InsertPermutes(x, s[1..], reverse);
      forall j | 0 <= j < |rest|
        ensures Precedes(s[0], rest[j], reverse)
      {
        assert rest[j] in multiset(rest);
      }
    }
  }

  /** Every finite set of tuples has a strictly ordered listing. */
  lemma {:induction false} ListingExists(items: set<Rank>, reverse: bool)
    ensures exists p :: StrictlyOrdered(p, reverse) && (forall x :: x in p <==> x in items)
    decreases |items|
  {
    if items == {} {
      assert StrictlyOrdered([], reverse);
    } else {
      var x :| x in items;
      ListingExists(items - {x}, reverse);
      var p :| StrictlyOrdered(p, reverse) && (forall y :: y in p <==> y in items - {x});
      InsertListing(x, p, items - {x}, reverse);
      assert items - {x} + {x} == items;
    }
  }

  /** Inserting a new tuple into a listing lists one tuple more. */
  lemma InsertListing(x: Rank, p: seq<Rank>, items: set<Rank>, reverse: bool)
    requires StrictlyOrdered(p, reverse) && (forall y :: y in p <==> y in items) && x !in items
    ensures StrictlyOrdered(Insert(x, p, reverse), reverse)
    ensures forall y :: y in Insert(x, p, reverse) <==> y in items + {x}
  {
    InsertPermutes(x, p, reverse);
    InsertOrdered(x, p, reverse);
    var q := Insert(x, p, reverse);
    assert forall y :: y in q <==> y in multiset(q);
    assert forall y :: y in p <==> y in multiset(p);
  }

  /** Two strictly ordered listings of the same tuples are equal: sorting
      distinct tuples has exactly one possible result. */
  lemma {:induction false} ListingUnique(a: seq<Rank>, b: seq<Rank>, reverse: bool)
    requires StrictlyOrdered(a, reverse) && StrictlyOrdered(b, reverse)
    requires forall x :: x in a <==> x in b
    ensures a == b
  {
    SameEmptiness(a, b);
    if |a| != 0 {
      assert a[0] in b && b[0] in a;
      if a[0] != b[0] {
        var ia :| 0 <= ia < |a| && a[ia] == b[0];
        var ib :| 0 <= ib < |b| && b[ib] == a[0];
        PrecedesTransitive(a[0], b[0], a[0], reverse);
        PrecedesIrreflexive(a[0], reverse);
      }
      forall x
        ensures x in a[1..] <==> x in b[1..]
      {
        if x in a[1..] { TailMember(a, b, x, reverse); }
        if x in b[1..] { TailMember(b, a, x, reverse); }
      }
      ListingUnique(a[1..], b[1..], reverse);
      assert a == [a[0]] + a[1..] && b == [b[0]] + b[1..];
    }
  }

  /** Sequences with the same elements are both empty or both not. */
  lemma SameEmptiness(a: seq<Rank>, b: seq<Rank>)
    requires forall x :: x in a <==> x in b
    ensures |a| == 0 <==> |b| == 0
  {
    if |a| != 0 { assert a[0] in b; }
    if |b| != 0 { assert b[0] in a; }
  }

  /** Past the shared head, a tuple of one listing is in the other's tail. */
  lemma TailMember(a: seq<Rank>, b: seq<Rank>, x: Rank, reverse: bool)
    requires StrictlyOrdered(a, reverse) && StrictlyOrdered(b, reverse)
    requires forall y :: y in a <==> y in b
    requires |a| > 0 && |b| > 0 && a[0] == b[0]
    requires x in a[1..]
    ensures x in b[1..]
  {
    var j :| 1 <= j < |a| && a[j] == x;
    PrecedesIrreflexive(a[0], reverse);
    assert x in b;
    var k :| 0 <= k < |b| && b[k] == x;
    assert k != 0;
  }

  /** `sorted(items, reverse=reverse)` described by what it returns: the
      strictly ordered listing of the tuples. */
  ghost function SortedRanks(items: set<Rank>, reverse: bool): seq<Rank>
  {
    ListingExists(items, reverse);
    var p :| StrictlyOrdered(p, reverse) && (forall x :: x in p <==> x in items); p
  }

  /** `sorted(items, reverse=reverse)` over a collection of distinct tuples: the
      result holds every item exactly once, in strictly ascending (or, with
      `reverse`, strictly descending) order. */
  method Sorted(items: set<Rank>, reverse: bool) returns (order: seq<Rank>)
    ensures forall x :: x in order <==> x in items
    ensures StrictlyOrdered(order, reverse)
    ensures |order| == |items|
    ensures order == SortedRanks(items, reverse)
  {
    order := [];
    var rest := items;
    while rest != {}
      invariant rest <= items
      invariant forall x :: x in order <==> x in items - rest
      invariant StrictlyOrdered(order, reverse)
      invariant |order| + |rest| == |items|
      decreases |rest|
    {
      var x :| x in rest;
      var next := Insert(x, order, reverse);
      InsertPermutes(x, order, reverse);
      InsertOrdered(x, order, reverse);
      assert |next| == |multiset(next)| == |order| + 1;
      assert forall y :: y in next <==> y in multiset(next);
      assert forall y :: y in order <==> y in multiset(order);
      order := next;
      rest := rest - {x};
    }
    ListingUnique(order, SortedRanks(items, reverse), reverse);
  }

  /** Strictly ordered sequences never repeat an element. */
  lemma StrictlyOrderedDistinct(s: seq<Rank>, reverse: bool, i: int, j: int)
    requires StrictlyOrdered(s, reverse)
    requires 0 <= i < |s| && 0 <= j < |s| && i != j
    ensures s[i] != s[j]
  {
    if i < j { PrecedesIrreflexive(s[i], reverse); } else { PrecedesIrreflexive(s[j], reverse); }
  }

  predicate Ascending(s: seq<int>)
  {
    forall i, j :: 0 <= i < j < |s| ==> s[i] <= s[j]
  }

  /** Inserts `x` before the first element it does not exceed. */
  function InsertInt(x: int, s: seq<int>): seq<int>
  {
    if |s| == 0 || x <= s[0] then [x] + s
    else [s[0]] + InsertInt(x, s[1..])
  }

  lemma {:induction false} InsertIntPermutes(x: int, s: seq<int>)
    ensures multiset(InsertInt(x, s)) == multiset(s) + multiset{x}
  {
    if |s| > 0 && x > s[0] {
      InsertIntPermutes(x, s[1..]);
      assert s == [s[0]] + s[1..];
    }
  }

  lemma {:induction false} InsertIntAscending(x: int, s: seq<int>)
    requires Ascending(s)
    ensures Ascending(InsertInt(x, s))
  {
    if |s| > 0 && x > s[0] {
      var rest := InsertInt(x, s[1..]);
      InsertIntAscending(x, s[1..]);
      InsertIntPermutes(x, s[1..]);
      forall j | 0 <= j < |rest|
        ensures s[0] <= rest[j]
      {
        assert rest[j] in multiset(rest);
      }
    }
  }

  /** Python's `sorted(...)` on a list of ints, by insertion. */
  function SortInts(s: seq<int>): seq<int>
  {
    if |s| == 0 then []
    else InsertInt(s[|s| - 1], SortInts(s[..|s| - 1]))
  }

  /** `sorted(...)` returns an ascending permutation of its argument. */
  lemma {:induction false} SortIntsSorts(s: seq<int>)
    ensures Ascending(SortInts(s))
    ensures multiset(SortInts(s)) == multiset(s)
  {
    if |s| != 0 {
      var init := SortInts(s[..|s| - 1]);
      SortIntsSorts(s[..|s| - 1]);
      InsertIntPermutes(s[|s| - 1], init);
      InsertIntAscending(s[|s| - 1], init);
      assert s == s[..|s| - 1] + [s[|s| - 1]];
    }
  }

  /** The head of an ascending sequence is its least element. */
  lemma AscendingHead(a: seq<int>, x: int)
    requires Ascending(a) && x in multiset(a)
    ensures a[0] <= x
  {
    var i :| 0 <= i < |a| && a[i] == x;
    assert i == 0 || a[0] <= a[i];
  }

  lemma AscendingTail(a: seq<int>)
    requires Ascending(a) && |a| > 0
    ensures Ascending(a[1..])
  {
    forall i, j | 0 <= i < j < |a| - 1
      ensures a[1..][i] <= a[1..][j]
    {
      assert a[1..][i] == a[i + 1] && a[1..][j] == a[j + 1];
    }
  }

  /** Dropping the head of a sequence drops one copy of it from its elements. */
  lemma TailElements(a: seq<int>)
    requires |a| > 0
    ensures multiset(a[1..]) == multiset(a) - multiset{a[0]}
  {
    assert a == [a[0]] + a[1..];
  }

  /** Two ascending sequences with the same elements are equal: sorting
      has exactly one possible result. */
  lemma {:induction false} AscendingUnique(a: seq<int>, b: seq<int>)
    requires Ascending(a) && Ascending(b) && multiset(a) == multiset(b)
    ensures a == b
  {
    assert |a| == |multiset(a)| == |multiset(b)| == |b|;
    if |a| != 0 {
      SameHead(a, b);
      AscendingUnique(a[1..], b[1..]);
      assert a == [a[0]] + a[1..] && b == [b[0]] + b[1..];
    }
  }

  lemma SameHead(a: seq<int>, b: seq<int>)
    requires Ascending(a) && Ascending(b) && multiset(a) == multiset(b) && |a| > 0 && |b| > 0
    ensures a[0] == b[0] && multiset(a[1..]) == multiset(b[1..])
    ensures Ascending(a[1..]) && Ascending(b[1..])
  {
    AscendingHead(a, b[0]);
    AscendingHead(b, a[0]);
    TailElements(a);
    TailElements(b);
    AscendingTail(a);
    AscendingTail(b);
  }

  /** `sorted(s)` described by what it returns: the ascending permutation of `s`. */
  ghost function SortedInts(s: seq<int>): seq<int>
  {
    SortIntsSorts(s);
    var p :| Ascending(p) && multiset(p) == multiset(s); p
  }

  /** `poss = sorted(positions)`. */
  method SortPositions(positions: seq<int>) returns (poss: seq<int>)
    ensures poss == SortedInts(positions)
  {
    poss := SortInts(positions);
    SortIntsSorts(positions);
    AscendingUnique(poss, SortedInts(positions));
  }
}
