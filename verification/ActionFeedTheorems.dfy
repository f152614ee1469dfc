/** The feed: dedupe, sort, cut, count. */
module ActionFeedTheorems {
  import opened ActionFeed

  lemma {:induction false} KeepFirstKeepsWinners(sorted: seq<Item>, x: Item)
    requires StrictlyOrdered(sorted)
    ensures x in KeepFirst(sorted) <==> Wins(sorted, x)
  {
    hide Compare;
    if sorted == [] {
    } else {
      var n := |sorted| - 1;
      var z := sorted[n];
      KeepFirstKeepsWinners(sorted[..n], x);
      assert sorted == sorted[..n] + [z];
      forall y <- sorted[..n] ensures Above(y, z) && !Above(z, y) && y != z {
        var i :| 0 <= i < n && sorted[i] == y;
        assert Above(sorted[i], sorted[n]);
        CompareFlips(y, z);
      }
    }
  }

  lemma {:induction false} KeepFirstOrdered(sorted: seq<Item>)
    requires StrictlyOrdered(sorted)
    ensures StrictlyOrdered(KeepFirst(sorted))
    ensures forall x <- KeepFirst(sorted) :: x in sorted
  {
    if sorted == [] {
    } else {
      var n := |sorted| - 1;
      KeepFirstOrdered(sorted[..n]);
      forall x <- KeepFirst(sorted[..n]) ensures Above(x, sorted[n]) {
        var i :| 0 <= i < n && sorted[i] == x;
        assert Above(sorted[i], sorted[n]);
      }
    }
  }

  /** Deduping and then sorting is sorting and then keeping the first item of each prospect. */
  lemma DedupeThenSort(items: seq<Item>)
    requires Distinct(items)
    ensures Sort(DedupeByProspect(items)) == KeepFirst(Sort(items))
  {
    var a, b := Sort(DedupeByProspect(items)), KeepFirst(Sort(items));
    DedupeDistinct(items);
    DistinctSortsStrictly(DedupeByProspect(items));
    DistinctSortsStrictly(items);
    KeepFirstOrdered(Sort(items));
    forall x ensures x in a <==> x in b {
      DedupedAreWinners(items, x);
      KeepFirstKeepsWinners(Sort(items), x);
      assert Wins(items, x) <==> Wins(Sort(items), x);
    }
    OneStrictOrder(a, b);
  }

  // ------------------------------------------------------------------ the feed

  datatype Summary = Summary(needsApproval: nat, replies: nat, meetings: nat, blocked: nat, total: nat)

  datatype Feed = Feed(items: seq<Item>, summary: Summary)

  function CountKind(items: seq<Item>, kind: ItemType): nat
  {
    if items == [] then 0
    else CountKind(items[..|items| - 1], kind) + (if items[|items| - 1].kind == kind then 1 else 0)
  }

  /** The collectors' items, one collector after the other. */
  function Collect(collected: seq<seq<Item>>): seq<Item>
  {
    if collected == [] then [] else Collect(collected[..|collected| - 1]) + collected[|collected| - 1]
  }

  function Cut(items: seq<Item>, limit: nat): seq<Item>
  {
    if limit < |items| then items[..limit] else items
  }

  function FeedItems(raw: seq<Item>, limit: nat): seq<Item>
  {
    Cut(Sort(DedupeByProspect(raw)), limit)
  }

  /** The order in which items were collected does not show. */
  lemma CollectionOrderIsMoot(a: seq<Item>, b: seq<Item>, limit: nat)
    requires Distinct(a) && multiset(a) == multiset(b)
    ensures FeedItems(a, limit) == FeedItems(b, limit)
  {
    DistinctIsUnordered(a, b);
    DedupeThenSort(a);
    DedupeThenSort(b);
    DistinctSortsStrictly(a);
    DistinctSortsStrictly(b);
    forall x ensures x in Sort(a) <==> x in Sort(b) {
      assert x in multiset(a) <==> x in multiset(b);
    }
    OneStrictOrder(Sort(a), Sort(b));
  }

  /** With ties the order does show: swapping two tied items of one prospect changes which one is kept. */
  lemma TiesShowTheOrder(x: Item, y: Item, limit: nat)
    requires Tied(x, y) && x != y && x.prospect == y.prospect != "" && limit > 0
    ensures FeedItems([x, y], limit) == [x] && FeedItems([y, x], limit) == [y]
  {
    CompareFlips(x, y);
    PairOfOneProspect(x, y);
    PairOfOneProspect(y, x);
  }

  lemma PairOfOneProspect(x: Item, y: Item)
    requires Tied(x, y) && x.prospect == y.prospect != ""
    ensures Sort(DedupeByProspect([x, y])) == [x]
  {
    CompareFlips(x, y);
    assert [x, y][..1] == [x] && [x][..0] == [];
    assert WithoutProspect([x]) == [] && WithoutProspect([x, y]) == [] + [];
    assert Best([x]) == PutBest([], x) == [x];
    assert [x][1..] == [];
    assert Best([x, y]) == PutBest([x], y) == [x] + [];
    assert DedupeByProspect([x, y]) == [x];
    assert Sort([x]) == Insert(Sort([]), x) == [x];
  }

  /** No score lifts an item over a higher type. */
  lemma TiersAreNeverCrossed(raw: seq<Item>, limit: nat, i: nat, j: nat)
    requires i < j < |FeedItems(raw, limit)|
    ensures Rank(FeedItems(raw, limit)[i].kind) >= Rank(FeedItems(raw, limit)[j].kind)
  {
    SortOrders(DedupeByProspect(raw));
    var s := Sort(DedupeByProspect(raw));
    assert Compare(s[i], s[j]) <= 0.0;
  }

  /** A prospect appears at most once, ties or not. */
  lemma OncePerProspect(raw: seq<Item>, limit: nat, i: nat, j: nat)
    requires i < j < |FeedItems(raw, limit)| && FeedItems(raw, limit)[i].prospect != ""
    ensures FeedItems(raw, limit)[i].prospect != FeedItems(raw, limit)[j].prospect
  {
    var d, s := DedupeByProspect(raw), Sort(DedupeByProspect(raw));
    BestOnePerProspect(raw);
    if s[i].prospect == s[j].prospect {
      var p := s[i].prospect;
      ProspectsOnce(Best(raw), p);
      NoProspectHere(raw, p);
      CountPSum(Best(raw), WithoutProspect(raw), p);
      CountPSort(d, p);
      CountPTwo(s, i, j);
      assert false;
    }
  }

  function CountP(s: seq<Item>, p: string): nat
  {
    if s == [] then 0 else CountP(s[..|s| - 1], p) + (if s[|s| - 1].prospect == p then 1 else 0)
  }

  lemma {:induction false} CountPSum(a: seq<Item>, b: seq<Item>, p: string)
    ensures CountP(a + b, p) == CountP(a, p) + CountP(b, p)
  {
    if b == [] {
      assert a + b == a;
    } else {
      assert (a + b)[..|a + b| - 1] == a + b[..|b| - 1];
      CountPSum(a, b[..|b| - 1], p);
    }
  }

  lemma CountPNext(s: seq<Item>, x: Item, p: string)
    ensures CountP(s + [x], p) == CountP(s, p) + (if x.prospect == p then 1 else 0)
  {
    assert (s + [x])[..|s|] == s;
  }

  lemma {:induction false} CountPInsert(sorted: seq<Item>, x: Item, p: string)
    ensures CountP(Insert(sorted, x), p) == CountP(sorted, p) + (if x.prospect == p then 1 else 0)
  {
    CountPNext(sorted, x, p);
    if sorted == [] {
      CountPNext([], x, p);
      assert [] + [x] == [x];
    } else if Above(x, sorted[|sorted| - 1]) {
      CountPInsert(sorted[..|sorted| - 1], x, p);
      CountPNext(Insert(sorted[..|sorted| - 1], x), sorted[|sorted| - 1], p);
    }
  }

  lemma {:induction false} CountPSort(items: seq<Item>, p: string)
    ensures CountP(Sort(items), p) == CountP(items, p)
  {
    if items == [] {
    } else {
      CountPSort(items[..|items| - 1], p);
      CountPInsert(Sort(items[..|items| - 1]), items[|items| - 1], p);
    }
  }

  lemma {:induction false} CountPTwo(s: seq<Item>, i: nat, j: nat)
    requires i < j < |s| && s[i].prospect == s[j].prospect
    ensures CountP(s, s[i].prospect) >= 2
  {
    var n := |s| - 1;
    if j < n {
      CountPTwo(s[..n], i, j);
    } else {
      CountPOne(s[..n], i);
    }
  }

  lemma {:induction false} CountPOne(s: seq<Item>, i: nat)
    requires i < |s|
    ensures CountP(s, s[i].prospect) >= 1
  {
    if i < |s| - 1 { CountPOne(s[..|s| - 1], i); }
  }

  lemma {:induction false} ProspectsOnce(best: seq<Item>, p: string)
    requires OnePerProspect(best)
    ensures CountP(best, p) <= 1
    ensures (forall x <- best :: x.prospect != p) ==> CountP(best, p) == 0
  {
    if best == [] {
    } else {
      ProspectsOnce(best[..|best| - 1], p);
    }
  }

  lemma {:induction false} NoProspectHere(items: seq<Item>, p: string)
    requires p != ""
    ensures CountP(WithoutProspect(items), p) == 0
  {
    if items == [] {
    } else {
      NoProspectHere(items[..|items| - 1], p);
      if items[|items| - 1].prospect == "" {
        CountPNext(WithoutProspect(items[..|items| - 1]), items[|items| - 1], p);
      } else {
        assert WithoutProspect(items) == WithoutProspect(items[..|items| - 1]);
      }
    }
  }

  /** A smaller limit shows a prefix of what a larger one shows. */
  lemma SmallerLimitIsPrefix(raw: seq<Item>, m: nat, n: nat)
    requires m <= n
    ensures FeedItems(raw, m) <= FeedItems(raw, n)
    ensures |FeedItems(raw, m)| <= m
  {}

  lemma {:induction false} KindsAddUp(items: seq<Item>)
    ensures CountKind(items, DraftApproval) + CountKind(items, ProspectApproval) + CountKind(items, ReplyReview)
            + CountKind(items, MeetingOpportunity) + CountKind(items, WorkflowBlocked) == |items|
  {
    if items == [] {
    } else {
      KindsAddUp(items[..|items| - 1]);
    }
  }

  // -------------------------------------------------------------------- loops

  /** Writing over the entry of a key, or appending a new one, is PutBest. */
  lemma {:induction false} PutBestAt(best: seq<Item>, x: Item, i: nat)
    requires i <= |best| && (i < |best| ==> best[i].prospect == x.prospect)
    requires forall k | 0 <= k < i :: best[k].prospect != x.prospect
    ensures PutBest(best, x)
         == if i == |best| then best + [x] else if Above(x, best[i]) then best[i := x] else best
  {
    if i > 0 { PutBestAt(best[1..], x, i - 1); }
  }

  /** The map finds each entry by its prospect. */
  ghost predicate Indexes(at: map<string, nat>, best: seq<Item>)
  {
    && (forall p | p in at :: at[p] < |best| && best[at[p]].prospect == p)
    && (forall k | 0 <= k < |best| :: best[k].prospect in at && at[best[k].prospect] == k)
  }

  lemma NewEntry(at: map<string, nat>, best: seq<Item>, x: Item)
    requires Indexes(at, best) && x.prospect !in at
    ensures PutBest(best, x) == best + [x] && Indexes(at[x.prospect := |best|], best + [x])
  {
    PutBestAt(best, x, |best|);
  }

  lemma OldEntry(at: map<string, nat>, best: seq<Item>, x: Item)
    requires Indexes(at, best) && x.prospect in at
    ensures var k := at[x.prospect];
      PutBest(best, x) == (if Above(x, best[k]) then best[k := x] else best) && Indexes(at, best[k := x])
  {
    hide Compare;
    PutBestAt(best, x, at[x.prospect]);
  }

  /** The loop over the items; the map is kept as its keys in insertion order and a value for each. */
  method DedupeInLoop(items: seq<Item>) returns (r: seq<Item>)
    ensures r == DedupeByProspect(items)
  {
    hide PutBest;
    var at: map<string, nat> := map[];
    var best: seq<Item>, withoutProspect: seq<Item> := [], [];
    for i := 0 to |items|
      invariant best == Best(items[..i]) && withoutProspect == WithoutProspect(items[..i])
      invariant Indexes(at, best)
    {
      assert items[..i + 1][..i] == items[..i];
      var item := items[i];
      if item.prospect == "" {
        withoutProspect := withoutProspect + [item];
      } else if item.prospect !in at {
        NewEntry(at, best, item);
        at := at[item.prospect := |best|];
        best := best + [item];
      } else {
        OldEntry(at, best, item);
        if Compare(item, best[at[item.prospect]]) < 0.0 {
          best := best[at[item.prospect] := item];
        }
      }
    }
    assert items[..|items|] == items;
    r := best + withoutProspect;
  }

  /** getFeed: collect, dedupe, sort, cut, and count what is shown. */
  method GetFeed(collected: seq<seq<Item>>, limit: nat) returns (feed: Feed)
    ensures feed.items == FeedItems(Collect(collected), limit)
    ensures feed.summary.needsApproval == CountKind(feed.items, DraftApproval) + CountKind(feed.items, ProspectApproval)
    ensures feed.summary.replies == CountKind(feed.items, ReplyReview)
    ensures feed.summary.meetings == CountKind(feed.items, MeetingOpportunity)
    ensures feed.summary.blocked == CountKind(feed.items, WorkflowBlocked)
    ensures feed.summary.total
         == feed.summary.needsApproval + feed.summary.replies + feed.summary.meetings + feed.summary.blocked
  {
    var raw: seq<Item> := [];
    for i := 0 to |collected|
      invariant raw == Collect(collected[..i])
    {
      assert collected[..i + 1][..i] == collected[..i];
      raw := raw + collected[i];
    }
    assert collected[..|collected|] == collected;
    var deduped := DedupeInLoop(raw);
    var shown := Cut(Sort(deduped), limit);
    KindsAddUp(shown);
    feed := Feed(shown, Summary(CountKind(shown, DraftApproval) + CountKind(shown, ProspectApproval),
                                CountKind(shown, ReplyReview), CountKind(shown, MeetingOpportunity),
                                CountKind(shown, WorkflowBlocked), |shown|));
  }
}
