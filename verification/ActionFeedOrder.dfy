/** Exactly when the order in which the collectors' items arrive shows in the feed. */
module ActionFeedOrder {
  import opened Wrappers
  import opened ActionFeed
  import opened ActionFeedTheorems

  /** No item of its prospect outranks x. */
  ghost predicate TopIn(items: seq<Item>, x: Item)
  {
    x in items && (x.prospect != "" ==> forall c <- items | c.prospect == x.prospect :: !Above(c, x))
  }

  /** Two different items the ranking cannot tell apart, both top, and both with a prospect or both without. */
  ghost predicate Contest(items: seq<Item>, a: Item, b: Item)
  {
    a != b && Tied(a, b) && (a.prospect == "" <==> b.prospect == "") && TopIn(items, a) && TopIn(items, b)
  }

  ghost predicate Contested(items: seq<Item>)
  {
    exists a, b :: Contest(items, a, b)
  }

  ghost predicate OrderIsMoot(items: seq<Item>)
  {
    forall other, limit | multiset(other) == multiset(items) :: FeedItems(other, limit) == FeedItems(items, limit)
  }

  // ------------------------------------------------ a sorted list is its ties

  lemma {:induction false} TiedWithSum(a: seq<Item>, b: seq<Item>, y: Item)
    ensures TiedWith(a + b, y) == TiedWith(a, y) + TiedWith(b, y)
  {
    if b == [] {
      assert a + b == a;
    } else {
      var n := |b| - 1;
      assert (a + b)[..|a + b| - 1] == a + b[..n];
      TiedWithSum(a, b[..n], y);
    }
  }

  lemma {:induction false} InTiedWith(s: seq<Item>, y: Item, x: Item)
    ensures x in TiedWith(s, y) <==> x in s && Tied(x, y)
  {
    if s == [] {
    } else {
      InTiedWith(s[..|s| - 1], y, x);
      assert s == s[..|s| - 1] + [s[|s| - 1]];
    }
  }

  ghost predicate SameTies(a: seq<Item>, b: seq<Item>)
  {
    forall y :: TiedWith(a, y) == TiedWith(b, y)
  }

  lemma LastOfTies(a: seq<Item>, b: seq<Item>)
    requires Ordered(b) && a != [] && b != []
    requires TiedWith(a, a[|a| - 1]) == TiedWith(b, a[|a| - 1])
    ensures Compare(a[|a| - 1], b[|b| - 1]) <= 0.0
  {
    var x, z := a[|a| - 1], b[|b| - 1];
    CompareFlips(x, x);
    InTiedWith(a, x, x);
    InTiedWith(b, x, x);
    var i :| 0 <= i < |b| && b[i] == x;
    if i == |b| - 1 {
    } else {
      assert Compare(b[i], b[|b| - 1]) <= 0.0;
    }
  }

  lemma LastsAgree(a: seq<Item>, b: seq<Item>)
    requires Ordered(a) && Ordered(b) && SameTies(a, b) && a != [] && b != []
    ensures a[|a| - 1] == b[|b| - 1]
  {
    var m, n := |a| - 1, |b| - 1;
    var x, z := a[m], b[n];
    LastOfTies(a, b);
    LastOfTies(b, a);
    CompareFlips(x, z);
    assert Tied(x, x) && Tied(z, x);
    hide Tied, Compare, Ordered;
    assert TiedWith(a, x) == TiedWith(a[..m], x) + [x];
    assert TiedWith(b, x) == TiedWith(b[..n], x) + [z];
    hide TiedWith;
    SameLast(TiedWith(a[..m], x), x, TiedWith(b[..n], x), z);
  }

  lemma PrefixesTieAlike(a: seq<Item>, b: seq<Item>)
    requires SameTies(a, b) && a != [] && b != [] && a[|a| - 1] == b[|b| - 1]
    ensures SameTies(a[..|a| - 1], b[..|b| - 1])
  {
    hide Tied;
    var m, n := |a| - 1, |b| - 1;
    forall y ensures TiedWith(a[..m], y) == TiedWith(b[..n], y) {
      assert TiedWith(a, y) == TiedWith(b, y);
      SameButLast(TiedWith(a[..m], y), TiedWith(b[..n], y), if Tied(a[m], y) then [a[m]] else []);
    }
  }

  lemma {:induction false} SortedIsItsTies(a: seq<Item>, b: seq<Item>)
    requires Ordered(a) && Ordered(b) && SameTies(a, b)
    ensures a == b
    decreases |a|
  {
    if a == [] {
      if b != [] {
        assert Tied(b[0], b[0]);
        InTiedWith(b, b[0], b[0]);
      }
    } else if b == [] {
      assert Tied(a[0], a[0]);
      InTiedWith(a, a[0], a[0]);
    } else {
      hide SameTies, Compare;
      LastsAgree(a, b);
      PrefixesTieAlike(a, b);
      SortedIsItsTies(a[..|a| - 1], b[..|b| - 1]);
      assert a == a[..|a| - 1] + [a[|a| - 1]] && b == b[..|b| - 1] + [b[|b| - 1]];
    }
  }

  lemma SameLast(a: seq<Item>, x: Item, b: seq<Item>, z: Item)
    requires a + [x] == b + [z]
    ensures x == z
  {
    assert (a + [x])[|a|] == x && (b + [z])[|b|] == z;
    assert |a + [x]| == |b + [z]|;
  }

  lemma SameButLast(a: seq<Item>, b: seq<Item>, end: seq<Item>)
    requires a + end == b + end
    ensures a == b
  {
    assert |a + end| == |b + end|;
    assert a == (a + end)[..|a|] && b == (b + end)[..|b|];
  }

  /** The sorted feed shows the order of a deduped list exactly in its ties. */
  lemma SameFeedExactlyWhen(a: seq<Item>, b: seq<Item>)
    ensures Sort(a) == Sort(b) <==> SameTies(a, b)
  {
    hide Sort, TiedWith, Ordered;
    SortOrders(a);
    SortOrders(b);
    forall y ensures TiedWith(Sort(a), y) == TiedWith(a, y) { SortIsStable(a, y); }
    forall y ensures TiedWith(Sort(b), y) == TiedWith(b, y) { SortIsStable(b, y); }
    if SameTies(a, b) { SortedIsItsTies(Sort(a), Sort(b)); }
  }

  // ------------------------------------------------------ without a contest

  /** The entry of a prospect is one of its top items. */
  lemma {:induction false} EntryIsTop(items: seq<Item>, p: string)
    requires p != ""
    ensures match EntryFor(Best(items), p)
            case None => forall y <- items :: y.prospect != p
            case Some(e) => e.prospect == p && TopIn(items, e)
  {
    hide Compare;
    if items == [] {
    } else {
      var n := |items| - 1;
      var x := items[n];
      assert items == items[..n] + [x];
      EntryIsTop(items[..n], p);
      CompareFlips(x, x);
      if x.prospect == p {
        EntryAfterPut(Best(items[..n]), x, p);
        var e := EntryFor(Best(items[..n]), p);
        if e.Some? {
          CompareFlips(x, e.value);
          forall y <- items[..n] | y.prospect == p && Above(x, e.value) ensures !Above(y, x) {
            if Above(y, x) { AboveTransitive(y, x, e.value); }
          }
        }
      } else if x.prospect != "" {
        EntryAfterPut(Best(items[..n]), x, p);
      }
    }
  }

  /** Without a contest the entries are exactly the top items. */
  lemma BestAreTop(items: seq<Item>, x: Item)
    requires !Contested(items)
    ensures x in Best(items) <==> x.prospect != "" && TopIn(items, x)
  {
    BestOnePerProspect(items);
    MemberIsEntry(Best(items), x);
    if x.prospect != "" {
      EntryIsTop(items, x.prospect);
      if TopIn(items, x) {
        var e := EntryFor(Best(items), x.prospect).value;
        CompareFlips(e, x);
        assert e == x || Contest(items, e, x);
      }
    }
  }

  lemma {:induction false} AtMostOneTied(best: seq<Item>, y: Item)
    requires forall i, j | 0 <= i < j < |best| :: !(Tied(best[i], y) && Tied(best[j], y))
    ensures |TiedWith(best, y)| <= 1
  {
    if best == [] {
    } else {
      var n := |best| - 1;
      AtMostOneTied(best[..n], y);
      if TiedWith(best[..n], y) != [] {
        var x := TiedWith(best[..n], y)[0];
        InTiedWith(best[..n], y, x);
        var i :| 0 <= i < n && best[..n][i] == x;
        assert !(Tied(best[i], y) && Tied(best[n], y));
      }
    }
  }

  lemma BestTiesAlone(items: seq<Item>, y: Item)
    requires !Contested(items)
    ensures |TiedWith(Best(items), y)| <= 1
  {
    var best := Best(items);
    BestOnePerProspect(items);
    forall i, j | 0 <= i < j < |best| ensures !(Tied(best[i], y) && Tied(best[j], y)) {
      BestAreTop(items, best[i]);
      BestAreTop(items, best[j]);
      if Tied(best[i], y) && Tied(best[j], y) {
        TiedTransitive(best[i], best[j], y);
        assert Contest(items, best[i], best[j]);
      }
    }
    AtMostOneTied(best, y);
  }

  lemma SameTop(a: seq<Item>, b: seq<Item>)
    requires multiset(a) == multiset(b)
    ensures forall x :: TopIn(a, x) == TopIn(b, x)
    ensures Contested(a) == Contested(b)
  {
    assert forall x :: x in a <==> x in multiset(a);
    assert forall x :: x in b <==> x in multiset(b);
    assert forall x :: TopIn(a, x) == TopIn(b, x);
    assert forall x, y :: Contest(a, x, y) == Contest(b, x, y);
  }

  lemma SameBestTies(a: seq<Item>, b: seq<Item>, y: Item)
    requires multiset(a) == multiset(b) && !Contested(a)
    ensures TiedWith(Best(a), y) == TiedWith(Best(b), y)
  {
    hide Tied, TopIn, Contested, TiedWith, Best;
    SameTop(a, b);
    BestTiesAlone(a, y);
    BestTiesAlone(b, y);
    var s, t := TiedWith(Best(a), y), TiedWith(Best(b), y);
    forall x ensures x in s <==> x in t {
      InTiedWith(Best(a), y, x);
      InTiedWith(Best(b), y, x);
      BestAreTop(a, x);
      BestAreTop(b, x);
    }
    if s != [] { assert s[0] in t; }
    if t != [] { assert t[0] in s; }
  }

  lemma {:induction false} WithoutProspectBag(items: seq<Item>, x: Item)
    ensures multiset(WithoutProspect(items))[x] == if x.prospect == "" then multiset(items)[x] else 0
  {
    if items == [] {
    } else {
      WithoutProspectBag(items[..|items| - 1], x);
      assert items == items[..|items| - 1] + [items[|items| - 1]];
    }
  }

  lemma {:induction false} ConstantLists(a: seq<Item>, b: seq<Item>)
    requires multiset(a) == multiset(b) && forall x <- a, y <- a :: x == y
    ensures a == b
  {
    assert |a| == |multiset(a)| == |multiset(b)| == |b|;
    forall i | 0 <= i < |a| ensures a[i] == b[i] {
      assert b[i] in multiset(b);
      assert a[i] in a && b[i] in a;
    }
  }

  lemma SameRestTies(a: seq<Item>, b: seq<Item>, y: Item)
    requires multiset(a) == multiset(b) && !Contested(a)
    ensures TiedWith(WithoutProspect(a), y) == TiedWith(WithoutProspect(b), y)
  {
    var s, t := TiedWith(WithoutProspect(a), y), TiedWith(WithoutProspect(b), y);
    forall x ensures multiset(s)[x] == multiset(t)[x] {
      TiedWithBag(WithoutProspect(a), y, x);
      TiedWithBag(WithoutProspect(b), y, x);
      WithoutProspectBag(a, x);
      WithoutProspectBag(b, x);
    }
    assert multiset(s) == multiset(t);
    forall x <- s, z <- s ensures x == z {
      InTiedWith(WithoutProspect(a), y, x);
      InTiedWith(WithoutProspect(a), y, z);
      InWithoutProspect(a, x);
      InWithoutProspect(a, z);
      TiedTransitive(x, z, y);
      assert x == z || Contest(a, x, z);
    }
    ConstantLists(s, t);
  }

  lemma UncontestedIsMoot(items: seq<Item>)
    requires !Contested(items)
    ensures OrderIsMoot(items)
  {
    forall other, limit | multiset(other) == multiset(items) ensures FeedItems(other, limit) == FeedItems(items, limit) {
      forall y ensures TiedWith(DedupeByProspect(other), y) == TiedWith(DedupeByProspect(items), y) {
        SameBestTies(items, other, y);
        SameRestTies(items, other, y);
        TiedWithSum(Best(items), WithoutProspect(items), y);
        TiedWithSum(Best(other), WithoutProspect(other), y);
      }
      SameFeedExactlyWhen(DedupeByProspect(other), DedupeByProspect(items));
    }
  }

  // --------------------------------------------------------- with a contest

  /** The list with one of its items collected first. */
  lemma Fronted(items: seq<Item>, a: Item) returns (rest: seq<Item>)
    requires a in items
    ensures multiset([a] + rest) == multiset(items)
  {
    var i :| 0 <= i < |items| && items[i] == a;
    rest := items[..i] + items[i + 1..];
    assert items == items[..i] + [a] + items[i + 1..];
  }

  lemma {:induction false} FirstStaysFirst(a: Item, rest: seq<Item>)
    requires a.prospect != "" && TopIn([a] + rest, a)
    ensures Best([a] + rest) != [] && Best([a] + rest)[0] == a
  {
    if rest == [] {
      assert [a] + rest == [a] && [a][..0] == [];
    } else {
      var n := |rest| - 1;
      assert ([a] + rest)[..|[a] + rest| - 1] == [a] + rest[..n];
      assert forall c <- [a] + rest[..n] :: c in [a] + rest;
      FirstStaysFirst(a, rest[..n]);
      assert rest[n] in [a] + rest;
    }
  }

  lemma {:induction false} FirstWithoutProspect(a: Item, rest: seq<Item>)
    requires a.prospect == ""
    ensures WithoutProspect([a] + rest) != [] && WithoutProspect([a] + rest)[0] == a
  {
    if rest == [] {
      assert [a] + rest == [a] && [a][..0] == [];
      assert WithoutProspect([a]) == [] + [a];
    } else {
      assert ([a] + rest)[..|[a] + rest| - 1] == [a] + rest[..|rest| - 1];
      FirstWithoutProspect(a, rest[..|rest| - 1]);
    }
  }

  lemma {:induction false} FirstTie(s: seq<Item>, y: Item)
    requires s != [] && Tied(s[0], y)
    ensures TiedWith(s, y) != [] && TiedWith(s, y)[0] == s[0]
  {
    if |s| == 1 {
      assert s == [] + [s[0]];
      TiedWithNext([], s[0], y);
    } else {
      FirstTie(s[..|s| - 1], y);
    }
  }

  /** Of the tied items, those without a prospect. */
  lemma {:induction false} RestOfTies(items: seq<Item>, y: Item)
    ensures WithoutProspect(TiedWith(items, y)) == TiedWith(WithoutProspect(items), y)
  {
    if items == [] {
    } else {
      var n := |items| - 1;
      var x := items[n];
      RestOfTies(items[..n], y);
      WithoutProspectNext(TiedWith(items[..n], y), x);
      TiedWithNext(WithoutProspect(items[..n]), x, y);
      assert TiedWith(items[..n], y) + [] == TiedWith(items[..n], y);
      assert WithoutProspect(items[..n]) + [] == WithoutProspect(items[..n]);
    }
  }

  lemma WithoutProspectNext(s: seq<Item>, x: Item)
    ensures WithoutProspect(s + [x]) == WithoutProspect(s) + (if x.prospect == "" then [x] else [])
  {
    assert (s + [x])[..|s|] == s;
  }

  lemma {:induction false} WithoutProspectSum(a: seq<Item>, b: seq<Item>)
    ensures WithoutProspect(a + b) == WithoutProspect(a) + WithoutProspect(b)
  {
    if b == [] {
      assert a + b == a;
    } else {
      assert (a + b)[..|a + b| - 1] == a + b[..|b| - 1];
      WithoutProspectSum(a, b[..|b| - 1]);
    }
  }

  lemma {:induction false} NoneWithout(s: seq<Item>)
    requires forall x <- s :: x.prospect != ""
    ensures WithoutProspect(s) == []
  {
    if s == [] {
    } else {
      NoneWithout(s[..|s| - 1]);
    }
  }

  lemma {:induction false} AllWithout(s: seq<Item>)
    requires forall x <- s :: x.prospect == ""
    ensures WithoutProspect(s) == s
  {
    if s == [] {
    } else {
      AllWithout(s[..|s| - 1]);
      assert s == s[..|s| - 1] + [s[|s| - 1]];
    }
  }

  /** Dedupe leaves the items without a prospect as they came. */
  lemma DedupeKeepsRest(items: seq<Item>)
    ensures WithoutProspect(DedupeByProspect(items)) == WithoutProspect(items)
  {
    BestOnePerProspect(items);
    forall x <- Best(items) ensures x.prospect != "" { MemberIsEntry(Best(items), x); }
    forall x <- WithoutProspect(items) ensures x.prospect == "" { InWithoutProspect(items, x); }
    NoneWithout(Best(items));
    AllWithout(WithoutProspect(items));
    WithoutProspectSum(Best(items), WithoutProspect(items));
  }

  /** Whichever of two contesting items is collected first comes first among those tied with them. */
  lemma FirstComesFirst(a: Item, rest: seq<Item>, y: Item)
    requires TopIn([a] + rest, a) && Tied(a, y)
    ensures var ties := TiedWith(DedupeByProspect([a] + rest), y);
      if a.prospect == "" then WithoutProspect(ties) != [] && WithoutProspect(ties)[0] == a else ties != [] && ties[0] == a
  {
    var items := [a] + rest;
    if a.prospect == "" {
      DedupeKeepsRest(items);
      RestOfTies(DedupeByProspect(items), y);
      FirstWithoutProspect(a, rest);
      FirstTie(WithoutProspect(items), y);
    } else {
      FirstStaysFirst(a, rest);
      FirstTie(DedupeByProspect(items), y);
    }
  }

  lemma WholeFeed(items: seq<Item>, limit: nat)
    requires limit >= |Sort(DedupeByProspect(items))|
    ensures FeedItems(items, limit) == Sort(DedupeByProspect(items))
  {}

  lemma ContestShows(items: seq<Item>, a: Item, b: Item)
    requires Contest(items, a, b)
    ensures !OrderIsMoot(items)
  {
    var ra := Fronted(items, a);
    var rb := Fronted(items, b);
    var s, t := [a] + ra, [b] + rb;
    SameTop(items, s);
    SameTop(items, t);
    CompareFlips(a, b);
    assert Tied(a, a) && Tied(b, a);
    hide Tied, Compare, Sort, DedupeByProspect, TiedWith;
    FirstComesFirst(a, ra, a);
    FirstComesFirst(b, rb, a);
    SameFeedExactlyWhen(DedupeByProspect(s), DedupeByProspect(t));
    assert TiedWith(DedupeByProspect(s), a) != TiedWith(DedupeByProspect(t), a);
    TwoFeeds(items, s, t);
  }

  /** Two orders of collection with different feeds. */
  lemma TwoFeeds(items: seq<Item>, s: seq<Item>, t: seq<Item>)
    requires multiset(s) == multiset(items) == multiset(t)
    requires Sort(DedupeByProspect(s)) != Sort(DedupeByProspect(t))
    ensures !OrderIsMoot(items)
  {
    hide Sort, DedupeByProspect, FeedItems;
    var limit := |Sort(DedupeByProspect(s))| + |Sort(DedupeByProspect(t))|;
    WholeFeed(s, limit);
    WholeFeed(t, limit);
    assert FeedItems(s, limit) != FeedItems(t, limit);
  }

  /**
   The order of collection never shows in the feed exactly when no two different items tie that
   are both top of their prospects or both without one. An item without a prospect never
   contests one that has one: it always comes after it.
  */
  lemma OrderIsMootExactlyWhen(items: seq<Item>)
    ensures OrderIsMoot(items) <==> !Contested(items)
  {
    if Contested(items) {
      var a, b :| Contest(items, a, b);
      ContestShows(items, a, b);
    } else {
      UncontestedIsMoot(items);
    }
  }

  // ---------------------------------------------------------------- the ranking

  /** Tiers from the top: meetings, replies, drafts to approve, blocked work, prospects to approve. */
  function Tier(kind: ItemType): nat
  {
    match kind
    case MeetingOpportunity => 0
    case ReplyReview => 1
    case DraftApproval => 2
    case WorkflowBlocked => 3
    case ProspectApproval => 4
  }

  /** The scores may stand in this order; no score counts as minus one. */
  predicate ScoresDescend(x: Item, y: Item)
  {
    match (x.score, y.score)
    case (Some(a), Some(b)) => a >= b
    case (None, Some(b)) => b <= -1.0
    case (Some(a), None) => a >= -1.0
    case (None, None) => true
  }

  /** The same for timestamps, where none counts as the epoch. */
  predicate TimesDescend(x: Item, y: Item)
  {
    match (x.updatedAt, y.updatedAt)
    case (Some(a), Some(b)) => a >= b
    case (None, Some(b)) => b <= 0
    case (Some(a), None) => a >= 0
    case (None, None) => true
  }

  predicate Descends(x: Item, y: Item)
  {
    && Tier(x.kind) <= Tier(y.kind)
    && (Tier(x.kind) == Tier(y.kind) ==> ScoresDescend(x, y))
    && (Tier(x.kind) == Tier(y.kind) && ScoresDescend(y, x) ==> TimesDescend(x, y))
    && (Tier(x.kind) == Tier(y.kind) && ScoresDescend(y, x) && TimesDescend(y, x) ==> x.id <= y.id)
  }

  lemma TiersAreRanks(x: Item, y: Item)
    ensures Tier(x.kind) <= Tier(y.kind) <==> Rank(x.kind) >= Rank(y.kind)
  {}

  lemma ScoresAndTimes(x: Item, y: Item)
    ensures ScoresDescend(x, y) <==> ScoreOf(x) >= ScoreOf(y)
    ensures TimesDescend(x, y) <==> TimeOf(x) >= TimeOf(y)
  {}

  /** The comparison, said on tiers, scores, times and ids. */
  lemma NotBelowExactlyWhen(x: Item, y: Item)
    ensures Compare(x, y) <= 0.0 <==> Descends(x, y)
  {
    TiersAreRanks(x, y);
    TiersAreRanks(y, x);
    ScoresAndTimes(x, y);
    ScoresAndTimes(y, x);
    hide Rank, Tier, ScoreOf, TimeOf, ScoresDescend, TimesDescend;
  }

  /** The feed descends by tier, within a tier by score, then by recency, then by id. */
  lemma FeedDescends(raw: seq<Item>, limit: nat, i: nat, j: nat)
    requires i < j < |FeedItems(raw, limit)|
    ensures Descends(FeedItems(raw, limit)[i], FeedItems(raw, limit)[j])
  {
    var s := Sort(DedupeByProspect(raw));
    SortOrders(DedupeByProspect(raw));
    hide Compare, Descends, Sort, DedupeByProspect;
    assert Compare(s[i], s[j]) <= 0.0;
    NotBelowExactlyWhen(s[i], s[j]);
  }
}
