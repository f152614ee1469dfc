/** Ranking the action feed, one item per prospect. */
module ActionFeed {
  import opened Wrappers

  datatype ItemType = MeetingOpportunity | ReplyReview | DraftApproval | WorkflowBlocked | ProspectApproval

  /**
   `id` is the id's place in the collation order (ids it cannot tell apart share one);
   `updatedAt` is None when the timestamp does not parse; `prospect` is "" when there is none.
  */
  datatype Item = Item(id: real, kind: ItemType, score: Option<real>, updatedAt: Option<int>, prospect: string)

  function Rank(kind: ItemType): int
  {
    match kind
    case MeetingOpportunity => 1000
    case ReplyReview => 900
    case DraftApproval => 700
    case WorkflowBlocked => 600
    case ProspectApproval => 400
  }

  function ScoreOf(x: Item): real
  {
    if x.score.Some? then x.score.value else -1.0
  }

  function TimeOf(x: Item): int
  {
    if x.updatedAt.Some? then x.updatedAt.value else 0
  }

  /** Negative when a ranks above b. */
  function Compare(a: Item, b: Item): real
  {
    if Rank(b.kind) != Rank(a.kind) then (Rank(b.kind) - Rank(a.kind)) as real
    else if ScoreOf(b) != ScoreOf(a) then ScoreOf(b) - ScoreOf(a)
    else if TimeOf(b) != TimeOf(a) then (TimeOf(b) - TimeOf(a)) as real
    else a.id - b.id
  }

  predicate Above(a: Item, b: Item)
  {
    Compare(a, b) < 0.0
  }

  predicate Tied(a: Item, b: Item)
  {
    Compare(a, b) == 0.0
  }

  // ------------------------------------------------------- a strict weak order

  lemma CompareFlips(a: Item, b: Item)
    ensures Compare(a, b) < 0.0 <==> Compare(b, a) > 0.0
    ensures Compare(a, b) == 0.0 <==> Compare(b, a) == 0.0
  {}

  lemma AboveTransitive(a: Item, b: Item, c: Item)
    requires Compare(a, b) <= 0.0 && Compare(b, c) <= 0.0
    ensures Compare(a, c) <= 0.0
    ensures Above(a, b) || Above(b, c) ==> Above(a, c)
  {}

  // ------------------------------------------------------------------ sorting

  /** A new item goes behind everything it does not outrank. */
  function Insert(sorted: seq<Item>, x: Item): seq<Item>
  {
    if sorted == [] then [x]
    else
      var n := |sorted| - 1;
      if Above(x, sorted[n]) then Insert(sorted[..n], x) + [sorted[n]] else sorted + [x]
  }

  /** The stable sort by Compare. */
  function Sort(items: seq<Item>): seq<Item>
  {
    if items == [] then [] else Insert(Sort(items[..|items| - 1]), items[|items| - 1])
  }

  ghost predicate Ordered(s: seq<Item>)
  {
    forall i, j | 0 <= i < j < |s| :: Compare(s[i], s[j]) <= 0.0
  }

  lemma {:induction false} InsertAdds(sorted: seq<Item>, x: Item)
    ensures multiset(Insert(sorted, x)) == multiset(sorted) + multiset{x}
  {
    if sorted == [] {
    } else {
      var n := |sorted| - 1;
      assert sorted == sorted[..n] + [sorted[n]];
      if Above(x, sorted[n]) { InsertAdds(sorted[..n], x); }
    }
  }

  lemma OrderedNext(s: seq<Item>, x: Item)
    requires Ordered(s) && forall y <- s :: Compare(y, x) <= 0.0
    ensures Ordered(s + [x])
  {}

  lemma {:induction false} InsertOrders(sorted: seq<Item>, x: Item)
    requires Ordered(sorted)
    ensures Ordered(Insert(sorted, x))
  {
    hide Compare;
    if sorted == [] {
    } else {
      var n := |sorted| - 1;
      if Above(x, sorted[n]) {
        InsertOrders(sorted[..n], x);
        InsertAdds(sorted[..n], x);
        forall y <- Insert(sorted[..n], x) ensures Compare(y, sorted[n]) <= 0.0 {
          assert y in multiset(sorted[..n]) + multiset{x};
        }
        OrderedNext(Insert(sorted[..n], x), sorted[n]);
      } else {
        CompareFlips(x, sorted[n]);
        forall y <- sorted ensures Compare(y, x) <= 0.0 {
          if y != sorted[n] { AboveTransitive(y, sorted[n], x); }
        }
        OrderedNext(sorted, x);
      }
    }
  }

  /** Sorting orders the same items. */
  lemma {:induction false} SortOrders(items: seq<Item>)
    ensures Ordered(Sort(items)) && multiset(Sort(items)) == multiset(items)
  {
    if items == [] {
    } else {
      var n := |items| - 1;
      SortOrders(items[..n]);
      InsertOrders(Sort(items[..n]), items[n]);
      InsertAdds(Sort(items[..n]), items[n]);
      assert items == items[..n] + [items[n]];
    }
  }

  /** The items tied with y, in order. */
  function TiedWith(s: seq<Item>, y: Item): seq<Item>
  {
    if s == [] then []
    else TiedWith(s[..|s| - 1], y) + (if Tied(s[|s| - 1], y) then [s[|s| - 1]] else [])
  }

  lemma TiedWithNext(s: seq<Item>, x: Item, y: Item)
    ensures TiedWith(s + [x], y) == TiedWith(s, y) + (if Tied(x, y) then [x] else [])
  {
    assert (s + [x])[..|s|] == s;
  }

  lemma TiedTransitive(a: Item, b: Item, c: Item)
    requires Tied(a, c) && Tied(b, c)
    ensures Tied(a, b)
  {}

  lemma NotBothTied(x: Item, z: Item, y: Item)
    requires Above(x, z)
    ensures !Tied(x, y) || !Tied(z, y)
  {}

  lemma {:induction false} InsertIsStable(sorted: seq<Item>, x: Item, y: Item)
    ensures TiedWith(Insert(sorted, x), y) == TiedWith(sorted, y) + (if Tied(x, y) then [x] else [])
  {
    hide Compare;
    if sorted == [] {
      TiedWithNext([], x, y);
      assert [] + [x] == [x];
    } else {
      var n := |sorted| - 1;
      if Above(x, sorted[n]) {
        InsertIsStable(sorted[..n], x, y);
        TiedWithNext(Insert(sorted[..n], x), sorted[n], y);
        NotBothTied(x, sorted[n], y);
        var before := TiedWith(sorted[..n], y);
        if Tied(x, y) {
          assert TiedWith(sorted, y) == before + [] == before;
        } else {
          assert before + [] == before;
        }
      } else {
        TiedWithNext(sorted, x, y);
      }
    }
  }

  /** Items the ranking cannot tell apart keep their order. */
  lemma {:induction false} SortIsStable(items: seq<Item>, y: Item)
    ensures TiedWith(Sort(items), y) == TiedWith(items, y)
  {
    if items == [] {
    } else {
      var n := |items| - 1;
      SortIsStable(items[..n], y);
      InsertIsStable(Sort(items[..n]), items[n], y);
    }
  }

  // -------------------------------------------------- one sorted list per set

  ghost predicate StrictlyOrdered(s: seq<Item>)
  {
    forall i, j | 0 <= i < j < |s| :: Above(s[i], s[j])
  }

  /** No two items tie. */
  ghost predicate Distinct(items: seq<Item>)
  {
    forall i, j | 0 <= i < j < |items| :: !Tied(items[i], items[j])
  }

  lemma SameTails(a: seq<Item>, b: seq<Item>)
    requires a != [] && b != [] && a[0] == b[0]
    requires StrictlyOrdered(a) && StrictlyOrdered(b) && forall x :: x in a <==> x in b
    ensures forall x :: x in a[1..] <==> x in b[1..]
  {
    forall x ensures x in a[1..] <==> x in b[1..] {
      TailOf(a, x);
      TailOf(b, x);
    }
  }

  lemma TailOf(a: seq<Item>, x: Item)
    requires a != [] && StrictlyOrdered(a)
    ensures x in a[1..] <==> x in a && x != a[0]
  {
    assert a == [a[0]] + a[1..];
    forall i | 1 <= i < |a| ensures a[i] != a[0] {
      assert Above(a[0], a[i]);
    }
  }

  lemma {:induction false} OneStrictOrder(a: seq<Item>, b: seq<Item>)
    requires StrictlyOrdered(a) && StrictlyOrdered(b) && forall x :: x in a <==> x in b
    ensures a == b
    decreases |a|
  {
    assert a != [] ==> a[0] in b;
    assert b != [] ==> b[0] in a;
    if a == [] {
    } else {
      CompareFlips(a[0], b[0]);
      assert a[0] == b[0];
      SameTails(a, b);
      OneStrictOrder(a[1..], b[1..]);
    }
  }

  // ----------------------------------------------------------------- deduping

  /** `byProspect` as the list of its values, in the order the keys came. */
  function PutBest(best: seq<Item>, x: Item): seq<Item>
  {
    if best == [] then [x]
    else if best[0].prospect == x.prospect then [if Above(x, best[0]) then x else best[0]] + best[1..]
    else [best[0]] + PutBest(best[1..], x)
  }

  function Best(items: seq<Item>): seq<Item>
  {
    if items == [] then []
    else
      var x := items[|items| - 1];
      if x.prospect == "" then Best(items[..|items| - 1]) else PutBest(Best(items[..|items| - 1]), x)
  }

  function WithoutProspect(items: seq<Item>): seq<Item>
  {
    if items == [] then []
    else WithoutProspect(items[..|items| - 1]) + (if items[|items| - 1].prospect == "" then [items[|items| - 1]] else [])
  }

  function DedupeByProspect(items: seq<Item>): seq<Item>
  {
    Best(items) + WithoutProspect(items)
  }

  /** Sorted first, then the first item of each prospect. */
  function KeepFirst(sorted: seq<Item>): seq<Item>
  {
    if sorted == [] then []
    else
      var n := |sorted| - 1;
      KeepFirst(sorted[..n]) + (if Represented(sorted[..n], sorted[n].prospect) then [] else [sorted[n]])
  }

  predicate Represented(items: seq<Item>, prospect: string)
  {
    prospect != "" && exists x <- items :: x.prospect == prospect
  }

  /** Of its prospect's items, the one that outranks all others. */
  ghost predicate Wins(items: seq<Item>, x: Item)
  {
    x in items && (x.prospect != "" ==> forall y <- items | y.prospect == x.prospect :: y == x || Above(x, y))
  }

  lemma {:induction false} InWithoutProspect(items: seq<Item>, x: Item)
    ensures x in WithoutProspect(items) <==> x in items && x.prospect == ""
  {
    if items == [] {
    } else {
      InWithoutProspect(items[..|items| - 1], x);
      assert items == items[..|items| - 1] + [items[|items| - 1]];
    }
  }

  // ------------------------------------------------ what the deduped list holds

  /** `byProspect.get(p)`. */
  function EntryFor(best: seq<Item>, p: string): Option<Item>
  {
    if best == [] then None else if best[0].prospect == p then Some(best[0]) else EntryFor(best[1..], p)
  }

  /** No two entries under one prospect. */
  ghost predicate OnePerProspect(best: seq<Item>)
  {
    forall i, j | 0 <= i < j < |best| :: best[i].prospect != best[j].prospect
  }

  lemma {:induction false} MemberIsEntry(best: seq<Item>, y: Item)
    requires OnePerProspect(best)
    ensures y in best <==> EntryFor(best, y.prospect) == Some(y)
  {
    if best == [] {
    } else {
      assert best == [best[0]] + best[1..];
      MemberIsEntry(best[1..], y);
    }
  }

  lemma {:induction false} EntryAfterPut(best: seq<Item>, x: Item, p: string)
    ensures EntryFor(PutBest(best, x), p)
         == if p != x.prospect then EntryFor(best, p)
            else if EntryFor(best, p).Some? && !Above(x, EntryFor(best, p).value) then EntryFor(best, p)
            else Some(x)
  {
    if best != [] && best[0].prospect != x.prospect { EntryAfterPut(best[1..], x, p); }
  }

  lemma {:induction false} PutBestKeepsOne(best: seq<Item>, x: Item)
    requires OnePerProspect(best)
    ensures OnePerProspect(PutBest(best, x))
    ensures forall y <- PutBest(best, x) :: y.prospect == x.prospect || exists z <- best :: z.prospect == y.prospect
  {
    if best == [] {
    } else {
      assert best == [best[0]] + best[1..];
      if best[0].prospect != x.prospect { PutBestKeepsOne(best[1..], x); }
    }
  }

  lemma {:induction false} BestOnePerProspect(items: seq<Item>)
    ensures OnePerProspect(Best(items)) && EntryFor(Best(items), "").None?
  {
    if items == [] {
    } else {
      var n := |items| - 1;
      BestOnePerProspect(items[..n]);
      if items[n].prospect != "" {
        PutBestKeepsOne(Best(items[..n]), items[n]);
        EntryAfterPut(Best(items[..n]), items[n], "");
      }
    }
  }

  /** Among items without ties the entry of a prospect is its winner, and a prospect without items has none. */
  lemma {:induction false} EntryWins(items: seq<Item>, p: string)
    requires Distinct(items) && p != ""
    ensures match EntryFor(Best(items), p)
            case None => forall y <- items :: y.prospect != p
            case Some(w) => w.prospect == p && Wins(items, w)
  {
    hide Compare;
    if items == [] {
    } else {
      var n := |items| - 1;
      var x := items[n];
      assert items == items[..n] + [x];
      EntryWins(items[..n], p);
      if x.prospect == p {
        EntryAfterPut(Best(items[..n]), x, p);
        var e := EntryFor(Best(items[..n]), p);
        if e.Some? {
          CompareFlips(x, e.value);
          forall y <- items[..n] | y.prospect == p && Above(x, e.value) ensures Above(x, y) {
            if y != e.value { AboveTransitive(x, e.value, y); }
          }
        }
      } else if x.prospect != "" {
        EntryAfterPut(Best(items[..n]), x, p);
      }
    }
  }

  lemma WinnerIsUnique(items: seq<Item>, a: Item, b: Item)
    requires Wins(items, a) && Wins(items, b) && a.prospect == b.prospect != ""
    ensures a == b
  {
    CompareFlips(a, b);
  }

  /** Dedupe keeps exactly the winners. */
  lemma DedupedAreWinners(items: seq<Item>, x: Item)
    requires Distinct(items)
    ensures x in DedupeByProspect(items) <==> Wins(items, x)
  {
    InWithoutProspect(items, x);
    BestOnePerProspect(items);
    MemberIsEntry(Best(items), x);
    if x.prospect != "" {
      EntryWins(items, x.prospect);
      if Wins(items, x) { WinnerIsUnique(items, x, EntryFor(Best(items), x.prospect).value); }
    }
  }

  // -------------------------------------------------------------- no new ties

  lemma {:induction false} TiedWithBag(s: seq<Item>, y: Item, x: Item)
    ensures multiset(TiedWith(s, y))[x] == if Tied(x, y) then multiset(s)[x] else 0
  {
    if s == [] {
    } else {
      TiedWithBag(s[..|s| - 1], y, x);
      assert s == s[..|s| - 1] + [s[|s| - 1]];
    }
  }

  lemma {:induction false} DistinctCounts(s: seq<Item>, y: Item)
    requires Distinct(s)
    ensures |TiedWith(s, y)| <= 1
    ensures TiedWith(s, y) == [] || (TiedWith(s, y)[0] in s && Tied(TiedWith(s, y)[0], y))
  {
    hide Compare;
    if s == [] {
    } else {
      var n := |s| - 1;
      DistinctCounts(s[..n], y);
      forall i | 0 <= i < n ensures !Tied(s[i], y) || !Tied(s[n], y) {
        assert !Tied(s[i], s[n]);
        if Tied(s[i], y) && Tied(s[n], y) { TiedTransitive(s[i], s[n], y); }
      }
    }
  }

  lemma {:induction false} TiedPairCounts(s: seq<Item>, i: nat, j: nat)
    requires i < j < |s| && Tied(s[i], s[j])
    ensures |TiedWith(s, s[j])| >= 2
  {
    var n := |s| - 1;
    if j < n {
      TiedPairCounts(s[..n], i, j);
    } else {
      CompareFlips(s[j], s[j]);
      assert Tied(s[j], s[j]);
      TiedOneCounts(s[..n], i, s[j]);
    }
  }

  lemma {:induction false} TiedOneCounts(s: seq<Item>, i: nat, y: Item)
    requires i < |s| && Tied(s[i], y)
    ensures |TiedWith(s, y)| >= 1
  {
    if i < |s| - 1 { TiedOneCounts(s[..|s| - 1], i, y); }
  }

  lemma DistinctFromCounts(s: seq<Item>)
    requires forall y :: |TiedWith(s, y)| <= 1
    ensures Distinct(s)
  {
    forall i, j | 0 <= i < j < |s| ensures !Tied(s[i], s[j]) {
      if Tied(s[i], s[j]) { TiedPairCounts(s, i, j); }
    }
  }

  lemma DistinctIsUnordered(a: seq<Item>, b: seq<Item>)
    requires Distinct(a) && multiset(a) == multiset(b)
    ensures Distinct(b)
  {
    forall y ensures |TiedWith(b, y)| <= 1 {
      DistinctCounts(a, y);
      forall x ensures multiset(TiedWith(a, y))[x] == multiset(TiedWith(b, y))[x] {
        TiedWithBag(a, y, x);
        TiedWithBag(b, y, x);
      }
      assert multiset(TiedWith(a, y)) == multiset(TiedWith(b, y));
      assert |multiset(TiedWith(a, y))| == |multiset(TiedWith(b, y))|;
    }
    DistinctFromCounts(b);
  }

  lemma DistinctSortsStrictly(items: seq<Item>)
    requires Distinct(items)
    ensures StrictlyOrdered(Sort(items))
    ensures forall x :: x in Sort(items) <==> x in items
  {
    SortOrders(items);
    DistinctIsUnordered(items, Sort(items));
    forall x ensures x in Sort(items) <==> x in items {
      assert x in multiset(items) <==> x in multiset(Sort(items));
    }
  }

  lemma DistinctItems(items: seq<Item>, x: Item, y: Item)
    requires Distinct(items) && x in items && y in items && x != y
    ensures !Tied(x, y)
  {
    var i :| 0 <= i < |items| && items[i] == x;
    var j :| 0 <= j < |items| && items[j] == y;
    CompareFlips(x, y);
    if i < j { assert !Tied(items[i], items[j]); } else { assert !Tied(items[j], items[i]); }
  }

  lemma {:induction false} WithoutProspectDistinct(items: seq<Item>)
    requires Distinct(items)
    ensures Distinct(WithoutProspect(items))
  {
    if items == [] {
    } else {
      var n := |items| - 1;
      WithoutProspectDistinct(items[..n]);
      forall x <- WithoutProspect(items[..n]) ensures !Tied(x, items[n]) {
        InWithoutProspect(items[..n], x);
        var i :| 0 <= i < n && items[i] == x;
        assert !Tied(items[i], items[n]);
      }
    }
  }

  lemma DedupeDistinct(items: seq<Item>)
    requires Distinct(items)
    ensures Distinct(DedupeByProspect(items))
  {
    var best, rest := Best(items), WithoutProspect(items);
    BestOnePerProspect(items);
    WithoutProspectDistinct(items);
    forall i, j | 0 <= i < j < |best + rest| ensures !Tied((best + rest)[i], (best + rest)[j]) {
      var x, y := (best + rest)[i], (best + rest)[j];
      assert x in best + rest && y in best + rest;
      DedupedAreWinners(items, x);
      DedupedAreWinners(items, y);
      if i < |best| {
        if j >= |best| {
          InWithoutProspect(items, y);
          MemberIsEntry(best, x);
        }
        DistinctItems(items, x, y);
      }
    }
  }
}
