/** Merging a regenerated list into the one humans edited, and the overrides that protect their edits. */
module PayloadMerge {
  import opened Wrappers

  /** An entry of a list section; `body` stands for every field but id and evidence. */
  datatype Item = Item(id: string, body: string, evidence: seq<string>)

  /** Protected ids in the order they were marked, tombstones, and the whole-list mark. */
  datatype ListOverrides = ListOverrides(items: seq<string>, suppressed: seq<string>, whole: bool)

  const NO_OVERRIDES := ListOverrides([], [], false)

  /** `list.find`: the first item with the id. */
  function Find(list: seq<Item>, id: string): (r: Option<Item>)
    ensures r.None? <==> forall item <- list :: item.id != id
    ensures r.Some? ==> r.value in list && r.value.id == id
  {
    if list == [] then None else if list[0].id == id then Some(list[0]) else Find(list[1..], id)
  }

  /** `new Map(list...)`: the last item with the id wins. */
  function ById(list: seq<Item>, id: string): (r: Option<Item>)
    ensures r.None? <==> forall item <- list :: item.id != id
    ensures r.Some? ==> r.value in list && r.value.id == id
  {
    if list == [] then None
    else if list[|list| - 1].id == id then Some(list[|list| - 1])
    else ById(list[..|list| - 1], id)
  }

  // ------------------------------------------------------------------ merging

  /** What one generated item contributes. */
  function Contribution(current: seq<Item>, item: Item, o: ListOverrides): (r: seq<Item>)
    ensures forall x <- r :: x.id == item.id
  {
    if item.id in o.suppressed then []
    else if item.id in o.items then
      var kept := ById(current, item.id);
      if kept.Some? then [kept.value] else []
    else [item]
  }

  function FromGenerated(current: seq<Item>, generated: seq<Item>, o: ListOverrides): seq<Item>
  {
    if generated == [] then []
    else
      FromGenerated(current, generated[..|generated| - 1], o) + Contribution(current, generated[|generated| - 1], o)
  }

  /** Protected items the generator did not bring back. */
  function Kept(current: seq<Item>, ids: seq<string>, generated: seq<Item>, o: ListOverrides): seq<Item>
  {
    if ids == [] then []
    else
      var id := ids[|ids| - 1];
      var item := ById(current, id);
      Kept(current, ids[..|ids| - 1], generated, o)
        + (if id !in o.suppressed && item.Some? && Find(FromGenerated(current, generated, o), id).None? then [item.value] else [])
  }

  function MergeList(current: seq<Item>, generated: seq<Item>, o: ListOverrides): seq<Item>
  {
    if o.whole then current
    else FromGenerated(current, generated, o) + Kept(current, o.items, generated, o)
  }

  // -------------------------------------------------------------- who is where

  lemma {:induction false} FindInSum(a: seq<Item>, b: seq<Item>, id: string)
    ensures Find(a + b, id) == if Find(a, id).Some? then Find(a, id) else Find(b, id)
  {
    if a == [] {
      assert a + b == b;
    } else {
      assert (a + b)[1..] == a[1..] + b;
      FindInSum(a[1..], b, id);
    }
  }

  lemma FindLast(a: seq<Item>, last: Item, id: string)
    ensures Find(a + [last], id) == if Find(a, id).Some? then Find(a, id) else if last.id == id then Some(last) else None
  {
    FindInSum(a, [last], id);
  }

  lemma {:induction false} ByIdInSum(a: seq<Item>, b: seq<Item>, id: string)
    ensures ById(a + b, id) == if ById(b, id).Some? then ById(b, id) else ById(a, id)
    decreases |b|
  {
    if b == [] {
      assert a + b == a;
    } else {
      assert (a + b)[..|a + b| - 1] == a + b[..|b| - 1];
      ByIdInSum(a, b[..|b| - 1], id);
    }
  }

  lemma {:induction false} GeneratedLookup(current: seq<Item>, generated: seq<Item>, o: ListOverrides, id: string)
    ensures var r := FromGenerated(current, generated, o);
      Find(r, id) == if id in o.suppressed then None
                     else if id in o.items then (if Find(generated, id).Some? then ById(current, id) else None)
                     else Find(generated, id)
    ensures var r := FromGenerated(current, generated, o);
      id in o.items ==> ById(r, id) == Find(r, id)
  {
    if generated == [] {
    } else {
      var n := |generated| - 1;
      GeneratedLookup(current, generated[..n], o, id);
      assert generated == generated[..n] + [generated[n]];
      FindLast(generated[..n], generated[n], id);
      var r, add := FromGenerated(current, generated[..n], o), Contribution(current, generated[n], o);
      FindInSum(r, add, id);
      ByIdInSum(r, add, id);
    }
  }

  lemma KeptNext(current: seq<Item>, ids: seq<string>, i: nat, generated: seq<Item>, o: ListOverrides)
    requires i < |ids|
    ensures var item := ById(current, ids[i]);
      Kept(current, ids[..i + 1], generated, o) == Kept(current, ids[..i], generated, o)
        + (if ids[i] !in o.suppressed && item.Some? && Find(FromGenerated(current, generated, o), ids[i]).None?
           then [item.value] else [])
  {
    assert ids[..i + 1][..i] == ids[..i];
  }

  lemma {:induction false} KeptLookup(current: seq<Item>, ids: seq<string>, generated: seq<Item>, o: ListOverrides, id: string)
    ensures var k := Kept(current, ids, generated, o);
      && Find(k, id) == (if id in ids && id !in o.suppressed && Find(FromGenerated(current, generated, o), id).None?
                         then ById(current, id) else None)
      && ById(k, id) == Find(k, id)
  {
    if ids == [] {
    } else {
      var n := |ids| - 1;
      var k, item := Kept(current, ids[..n], generated, o), ById(current, ids[n]);
      var keep := ids[n] !in o.suppressed && item.Some? && Find(FromGenerated(current, generated, o), ids[n]).None?;
      assert Kept(current, ids, generated, o) == if keep then k + [item.value] else k;
      hide Find, ById, Kept, FromGenerated;
      KeptLookup(current, ids[..n], generated, o, id);
      InLast(ids, id);
      if keep {
        FindLast(k, item.value, id);
        ByIdLast(k, item.value, id);
      }
    }
  }

  lemma InLast(ids: seq<string>, id: string)
    requires ids != []
    ensures id in ids <==> id in ids[..|ids| - 1] || id == ids[|ids| - 1]
  {
    assert ids == ids[..|ids| - 1] + [ids[|ids| - 1]];
  }

  lemma ByIdLast(a: seq<Item>, last: Item, id: string)
    ensures ById(a + [last], id) == if last.id == id then Some(last) else ById(a, id)
  {
    assert (a + [last])[..|a|] == a;
  }

  /** Suppressed ids are gone, protected ones keep the current item, the rest is as generated. */
  lemma Lookup(current: seq<Item>, generated: seq<Item>, o: ListOverrides, id: string)
    requires !o.whole
    ensures Find(MergeList(current, generated, o), id)
         == if id in o.suppressed then None else if id in o.items then ById(current, id) else Find(generated, id)
    ensures id in o.items ==> ById(MergeList(current, generated, o), id) == Find(MergeList(current, generated, o), id)
  {
    GeneratedLookup(current, generated, o, id);
    KeptLookup(current, o.items, generated, o, id);
    FindInSum(FromGenerated(current, generated, o), Kept(current, o.items, generated, o), id);
    ByIdInSum(FromGenerated(current, generated, o), Kept(current, o.items, generated, o), id);
  }

  // ---------------------------------------------------------- path independence

  /** The two lists agree on every protected, unsuppressed item. */
  ghost predicate SameProtected(a: seq<Item>, b: seq<Item>, o: ListOverrides)
  {
    forall id | id in o.items && id !in o.suppressed :: ById(a, id) == ById(b, id)
  }

  lemma {:induction false} SameFromGenerated(a: seq<Item>, b: seq<Item>, generated: seq<Item>, o: ListOverrides)
    requires SameProtected(a, b, o)
    ensures FromGenerated(a, generated, o) == FromGenerated(b, generated, o)
  {
    if generated == [] {
    } else {
      SameFromGenerated(a, b, generated[..|generated| - 1], o);
    }
  }

  lemma {:induction false} SameKept(a: seq<Item>, b: seq<Item>, ids: seq<string>, generated: seq<Item>, o: ListOverrides)
    requires SameProtected(a, b, o) && forall id <- ids :: id in o.items
    ensures Kept(a, ids, generated, o) == Kept(b, ids, generated, o)
  {
    SameFromGenerated(a, b, generated, o);
    if ids == [] {
    } else {
      assert ids[|ids| - 1] in ids;
      SameKept(a, b, ids[..|ids| - 1], generated, o);
    }
  }

  /** Regenerating with g1 and then g2 is regenerating with g2. */
  lemma MergeForgets(current: seq<Item>, g1: seq<Item>, g2: seq<Item>, o: ListOverrides)
    ensures MergeList(MergeList(current, g1, o), g2, o) == MergeList(current, g2, o)
  {
    if !o.whole {
      var merged := MergeList(current, g1, o);
      forall id | id in o.items && id !in o.suppressed ensures ById(merged, id) == ById(current, id) {
        Lookup(current, g1, o, id);
      }
      SameFromGenerated(merged, current, g2, o);
      SameKept(merged, current, o.items, g2, o);
    }
  }

  /** Without protected and suppressed ids the merge is the generated list, as the early return says. */
  lemma {:induction false} NothingProtected(current: seq<Item>, generated: seq<Item>, o: ListOverrides)
    requires o.items == [] && o.suppressed == []
    ensures FromGenerated(current, generated, o) == generated
  {
    if generated == [] {
    } else {
      NothingProtected(current, generated[..|generated| - 1], o);
      assert generated == generated[..|generated| - 1] + [generated[|generated| - 1]];
    }
  }

  // ------------------------------------------------------------------- loops

  /** The map form of ById. */
  ghost predicate Indexes(byId: map<string, Item>, list: seq<Item>)
  {
    forall id :: ById(list, id) == if id in byId then Some(byId[id]) else None
  }

  /** The set form of Find. */
  ghost predicate Sees(seen: set<string>, list: seq<Item>)
  {
    forall id :: id in seen <==> Find(list, id).Some?
  }

  /** `new Map(current.map(item => [item.id, item]))`. */
  method IndexById(current: seq<Item>) returns (byId: map<string, Item>)
    ensures Indexes(byId, current)
  {
    byId := map[];
    for i := 0 to |current|
      invariant Indexes(byId, current[..i])
    {
      assert current[..i + 1][..i] == current[..i];
      byId := byId[current[i].id := current[i]];
    }
    assert current[..|current|] == current;
  }

  /** The pass over the generated items, with the set of ids it took. */
  method TakeGenerated(current: seq<Item>, byId: map<string, Item>, generated: seq<Item>, o: ListOverrides)
    returns (result: seq<Item>, seen: set<string>)
    requires Indexes(byId, current)
    ensures result == FromGenerated(current, generated, o)
    ensures Sees(seen, result)
  {
    result, seen := [], {};
    for i := 0 to |generated|
      invariant result == FromGenerated(current, generated[..i], o)
      invariant Sees(seen, result)
    {
      assert generated[..i + 1][..i] == generated[..i];
      var item := generated[i];
      ghost var before, seen0 := result, seen;
      if item.id !in o.suppressed {
        if item.id in o.items {
          if item.id in byId {
            result := result + [byId[item.id]];
            seen := seen + {item.id};
          }
        } else {
          result := result + [item];
          seen := seen + {item.id};
        }
      }
      SeenNext(before, seen0, Contribution(current, item, o), item.id);
    }
    assert generated[..|generated|] == generated;
  }

  /** Appending the items of one id adds that id to the set of ids. */
  lemma SeenNext(before: seq<Item>, seen: set<string>, add: seq<Item>, id: string)
    requires Sees(seen, before)
    requires forall item <- add :: item.id == id
    ensures Sees(if add == [] then seen else seen + {id}, before + add)
  {
    forall x ensures Find(before + add, x).Some? <==> Find(before, x).Some? || (add != [] && x == id) {
      FindInSum(before, add, x);
      assert add != [] ==> add[0] in add;
    }
  }

  lemma IndexedAt(byId: map<string, Item>, list: seq<Item>, id: string)
    requires Indexes(byId, list)
    ensures ById(list, id) == if id in byId then Some(byId[id]) else None
  {}

  lemma SeenAt(seen: set<string>, list: seq<Item>, id: string)
    requires Sees(seen, list)
    ensures id in seen <==> Find(list, id).Some?
  {}

  /** The merge: whole list, early return, or the two passes. */
  method MergeInLoops(current: seq<Item>, generated: seq<Item>, o: ListOverrides) returns (result: seq<Item>)
    ensures result == MergeList(current, generated, o)
  {
    if o.whole {
      return current;
    }
    if o.items == [] && o.suppressed == [] {
      NothingProtected(current, generated, o);
      return generated;
    }
    var currentById := IndexById(current);
    var fromGenerated, seen := TakeGenerated(current, currentById, generated, o);
    result := fromGenerated;
    assert Kept(current, o.items[..0], generated, o) == [];
    hide Kept, Find, ById, FromGenerated, Indexes, Sees;
    for i := 0 to |o.items|
      invariant result == fromGenerated + Kept(current, o.items[..i], generated, o)
    {
      KeptNext(current, o.items, i, generated, o);
      var id := o.items[i];
      IndexedAt(currentById, current, id);
      SeenAt(seen, fromGenerated, id);
      if id !in o.suppressed && id !in seen && id in currentById {
        result := result + [currentById[id]];
      }
    }
    assert o.items[..|o.items|] == o.items;
  }
}
