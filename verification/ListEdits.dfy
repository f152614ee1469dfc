/** One list section and its overrides under regenerations and human edits. */
module ListEdits {
  import opened Wrappers
  import opened PayloadMerge
  import opened PayloadOverrides

  datatype Section = Section(list: seq<Item>, o: ListOverrides)

  /** A human's replacement item; without evidence it keeps what the item of that id had. */
  datatype NewItem = NewItem(id: string, body: string, evidence: Option<seq<string>>)

  datatype Edit =
    | Regenerate(generated: seq<Item>)
    | Put(id: string, body: string)
    | Drop(id: string)
    | Replace(items: seq<NewItem>)

  function EvidenceOf(list: seq<Item>, id: string): seq<string>
  {
    var found := Find(list, id);
    if found.Some? then found.value.evidence else []
  }

  /** In place of the first item with the id, else at the end. */
  function PutItem(list: seq<Item>, item: Item): seq<Item>
  {
    if list == [] then [item]
    else if list[0].id == item.id then [item] + list[1..]
    else [list[0]] + PutItem(list[1..], item)
  }

  function DropItem(list: seq<Item>, id: string): (r: seq<Item>)
    ensures forall x :: x in r <==> x in list && x.id != id
  {
    if list == [] then [] else DropItem(list[..|list| - 1], id) + (if list[|list| - 1].id == id then [] else [list[|list| - 1]])
  }

  function Replaced(list: seq<Item>, items: seq<NewItem>): (r: seq<Item>)
    ensures |r| == |items| && forall i | 0 <= i < |items| :: r[i].id == items[i].id
  {
    seq(|items|, i requires 0 <= i < |items| =>
      Item(items[i].id, items[i].body, if items[i].evidence.Some? then items[i].evidence.value else EvidenceOf(list, items[i].id)))
  }

  function Ids(list: seq<Item>): (r: seq<string>)
    ensures |r| == |list| && forall i | 0 <= i < |list| :: r[i] == list[i].id
  {
    seq(|list|, i requires 0 <= i < |list| => list[i].id)
  }

  function Apply(s: Section, e: Edit): Section
  {
    match e
    case Regenerate(generated) => s.(list := MergeList(s.list, generated, s.o))
    case Put(id, body) => Section(PutItem(s.list, Item(id, body, EvidenceOf(s.list, id))), MarkItem(s.o, id))
    case Drop(id) => if Find(s.list, id).None? then s else Section(DropItem(s.list, id), MarkSuppressed(s.o, id))
    case Replace(items) =>
      var list := Replaced(s.list, items);
      Section(list, MarkWhole(s.o, Ids(list), Ids(s.list)))
  }

  function ApplyAll(s: Section, edits: seq<Edit>): Section
  {
    if edits == [] then s else Apply(ApplyAll(s, edits[..|edits| - 1]), edits[|edits| - 1])
  }

  // --------------------------------------------------------------- invariants

  predicate HasId(list: seq<Item>, id: string)
  {
    exists item <- list :: item.id == id
  }

  /** Protected ids are present; while the list is not whole, tombstones are neither present nor protected. */
  ghost predicate Consistent(s: Section)
  {
    && (forall id <- s.o.items :: HasId(s.list, id))
    && (!s.o.whole ==> forall id <- s.o.suppressed :: !HasId(s.list, id) && id !in s.o.items)
  }

  lemma HasIdIsFound(list: seq<Item>, id: string)
    ensures HasId(list, id) <==> Find(list, id).Some?
    ensures HasId(list, id) <==> ById(list, id).Some?
  {}

  lemma {:induction false} FindAfterPut(list: seq<Item>, item: Item, id: string)
    ensures Find(PutItem(list, item), id) == if id == item.id then Some(item) else Find(list, id)
  {
    if list != [] && list[0].id != item.id {
      FindAfterPut(list[1..], item, id);
      assert PutItem(list, item)[1..] == PutItem(list[1..], item);
    } else if list != [] {
      assert PutItem(list, item)[1..] == list[1..];
    }
  }

  /** Every edit keeps the overrides consistent with the list, and none clears the whole-list mark. */
  lemma EditKeepsConsistent(s: Section, e: Edit)
    requires Consistent(s)
    ensures Consistent(Apply(s, e))
    ensures s.o.whole ==> Apply(s, e).o.whole
  {
    var s1 := Apply(s, e);
    match e
    case Regenerate(generated) =>
      if !s.o.whole {
        forall id ensures HasId(s1.list, id) <==> Find(s1.list, id).Some? { HasIdIsFound(s1.list, id); }
        forall id <- s.o.items ensures HasId(s1.list, id) {
          Lookup(s.list, generated, s.o, id);
          HasIdIsFound(s.list, id);
        }
        forall id <- s.o.suppressed ensures !HasId(s1.list, id) {
          Lookup(s.list, generated, s.o, id);
        }
      }
    case Put(id0, body) =>
      forall id ensures HasId(s1.list, id) <==> id == id0 || HasId(s.list, id) {
        HasIdIsFound(s1.list, id);
        HasIdIsFound(s.list, id);
        FindAfterPut(s.list, Item(id0, body, EvidenceOf(s.list, id0)), id);
      }
    case Drop(id0) =>
      forall id | id != id0 && HasId(s.list, id) ensures HasId(s1.list, id) {
        var item :| item in s.list && item.id == id;
        assert item in s1.list;
      }
    case Replace(items) =>
      forall id <- s1.o.items ensures HasId(s1.list, id) {
        var i :| 0 <= i < |s1.list| && Ids(s1.list)[i] == id;
        assert s1.list[i] in s1.list;
      }
  }

  lemma {:induction false} EditsKeepConsistent(s: Section, edits: seq<Edit>)
    requires Consistent(s)
    ensures Consistent(ApplyAll(s, edits))
    ensures s.o.whole ==> ApplyAll(s, edits).o.whole
  {
    if edits == [] {
    } else {
      EditsKeepConsistent(s, edits[..|edits| - 1]);
      EditKeepsConsistent(ApplyAll(s, edits[..|edits| - 1]), edits[|edits| - 1]);
    }
  }

  // -------------------------------------------------------------- distinct ids

  predicate Distinct(list: seq<Item>)
  {
    forall i, j | 0 <= i < j < |list| :: list[i].id != list[j].id
  }

  /** The hypothesis on what analyzers and replacements bring in. */
  predicate BringsDistinct(e: Edit)
  {
    match e
    case Regenerate(generated) => Distinct(generated)
    case Replace(items) => forall i, j | 0 <= i < j < |items| :: items[i].id != items[j].id
    case _ => true
  }

  lemma OnlyOne(list: seq<Item>, id: string)
    requires Distinct(list)
    ensures ById(list, id) == Find(list, id)
  {
    var last, first := ById(list, id), Find(list, id);
    hide ById, Find;
    if last.Some? {
      var i :| 0 <= i < |list| && list[i] == last.value;
      var j :| 0 <= j < |list| && list[j] == first.value;
      assert i == j;
    }
  }

  lemma DistinctSum(a: seq<Item>, b: seq<Item>)
    requires Distinct(a) && Distinct(b) && forall x <- a, y <- b :: x.id != y.id
    ensures Distinct(a + b)
  {
    forall i, j | 0 <= i < j < |a + b| ensures (a + b)[i].id != (a + b)[j].id {
      if i < |a| <= j { assert (a + b)[i] in a && (a + b)[j] in b; }
    }
  }

  lemma {:induction false} FromGeneratedDistinct(current: seq<Item>, generated: seq<Item>, o: ListOverrides)
    requires Distinct(generated)
    ensures Distinct(FromGenerated(current, generated, o))
    ensures forall x <- FromGenerated(current, generated, o) :: HasId(generated, x.id)
  {
    if generated == [] {
    } else {
      var n := |generated| - 1;
      FromGeneratedDistinct(current, generated[..n], o);
      assert forall x <- generated[..n] :: x in generated && x.id != generated[n].id;
      DistinctSum(FromGenerated(current, generated[..n], o), Contribution(current, generated[n], o));
      assert generated[n] in generated;
    }
  }

  predicate DistinctIds(ids: seq<string>)
  {
    forall i, j | 0 <= i < j < |ids| :: ids[i] != ids[j]
  }

  lemma {:induction false} KeptDistinct(current: seq<Item>, ids: seq<string>, generated: seq<Item>, o: ListOverrides)
    requires DistinctIds(ids)
    ensures Distinct(Kept(current, ids, generated, o))
    ensures forall x <- Kept(current, ids, generated, o) :: x.id in ids && Find(FromGenerated(current, generated, o), x.id).None?
  {
    if ids == [] {
    } else {
      var n := |ids| - 1;
      KeptDistinct(current, ids[..n], generated, o);
      assert forall id <- ids[..n] :: id in ids && id != ids[n];
      var k, all := Kept(current, ids[..n], generated, o), Kept(current, ids, generated, o);
      assert all == k + all[|k|..];
      DistinctSum(k, all[|k|..]);
    }
  }

  lemma {:induction false} MarkingKeepsDistinct(ids: seq<string>, id: string)
    requires DistinctIds(ids)
    ensures DistinctIds(WithId(ids, id)) && DistinctIds(OmitId(ids, id))
  {
    if ids == [] {
    } else {
      var n := |ids| - 1;
      var rest := OmitId(ids[..n], id);
      MarkingKeepsDistinct(ids[..n], id);
      if ids[n] != id {
        assert OmitId(ids, id) == rest + [ids[n]];
        forall i | 0 <= i < |rest| ensures rest[i] != ids[n] {
          assert rest[i] in ids[..n];
        }
      }
    }
  }

  lemma {:induction false} OnceDistinct(ids: seq<string>)
    ensures DistinctIds(Once(ids))
  {
    if ids == [] {
    } else {
      OnceDistinct(ids[..|ids| - 1]);
      MarkingKeepsDistinct(Once(ids[..|ids| - 1]), ids[|ids| - 1]);
    }
  }

  lemma {:induction false} PutDistinct(list: seq<Item>, item: Item)
    requires Distinct(list)
    ensures Distinct(PutItem(list, item))
    ensures forall x <- PutItem(list, item) :: x == item || x in list
  {
    if list != [] && list[0].id != item.id {
      PutDistinct(list[1..], item);
      assert forall x <- list[1..] :: x in list && x.id != list[0].id;
      DistinctSum([list[0]], PutItem(list[1..], item));
    } else if list != [] {
      assert forall x <- list[1..] :: x in list && x.id != list[0].id;
      DistinctSum([item], list[1..]);
    }
  }

  lemma {:induction false} DropDistinct(list: seq<Item>, id: string)
    requires Distinct(list)
    ensures Distinct(DropItem(list, id))
  {
    if list == [] {
    } else {
      var n := |list| - 1;
      DropDistinct(list[..n], id);
      assert forall x <- list[..n] :: x.id != list[n].id;
    }
  }

  ghost predicate Sound(s: Section)
  {
    Consistent(s) && Distinct(s.list) && DistinctIds(s.o.items)
  }

  lemma EditKeepsSound(s: Section, e: Edit)
    requires Sound(s) && BringsDistinct(e)
    ensures Sound(Apply(s, e))
  {
    EditKeepsConsistent(s, e);
    match e
    case Regenerate(generated) =>
      if !s.o.whole {
        FromGeneratedDistinct(s.list, generated, s.o);
        KeptDistinct(s.list, s.o.items, generated, s.o);
        DistinctSum(FromGenerated(s.list, generated, s.o), Kept(s.list, s.o.items, generated, s.o));
      }
    case Put(id, body) =>
      PutDistinct(s.list, Item(id, body, EvidenceOf(s.list, id)));
      MarkingKeepsDistinct(s.o.items, id);
    case Drop(id) =>
      DropDistinct(s.list, id);
      MarkingKeepsDistinct(s.o.items, id);
    case Replace(items) =>
      OnceDistinct(Ids(Replaced(s.list, items)));
  }

  // ------------------------------------------------------- human intent survives

  /** The edit concerns the item `id`, or the list as a whole. */
  predicate Edits(e: Edit, id: string)
  {
    match e
    case Regenerate(_) => false
    case Put(x, _) => x == id
    case Drop(x) => x == id
    case Replace(_) => true
  }

  /** A human's item, held against regeneration. */
  ghost predicate Held(s: Section, item: Item)
  {
    item.id in s.o.items && Find(s.list, item.id) == Some(item)
  }

  lemma PutHolds(s: Section, id: string, body: string)
    ensures Held(Apply(s, Put(id, body)), Item(id, body, EvidenceOf(s.list, id)))
  {
    FindAfterPut(s.list, Item(id, body, EvidenceOf(s.list, id)), id);
  }

  lemma {:induction false} FindAfterDrop(list: seq<Item>, dropped: string, id: string)
    ensures Find(DropItem(list, dropped), id) == if id == dropped then None else Find(list, id)
  {
    if list == [] {
    } else {
      var n := |list| - 1;
      FindAfterDrop(list[..n], dropped, id);
      assert list == list[..n] + [list[n]];
      FindLast(list[..n], list[n], id);
      FindLast(DropItem(list[..n], dropped), list[n], id);
      assert list[n].id == dropped ==> DropItem(list, dropped) == DropItem(list[..n], dropped);
      hide Find;
    }
  }

  lemma HeldStays(s: Section, e: Edit, item: Item)
    requires Sound(s) && Held(s, item) && !Edits(e, item.id)
    ensures Held(Apply(s, e), item)
  {
    match e
    case Regenerate(generated) =>
      if !s.o.whole {
        assert HasId(s.list, item.id) by { HasIdIsFound(s.list, item.id); }
        Lookup(s.list, generated, s.o, item.id);
        OnlyOne(s.list, item.id);
      }
    case Put(id, body) => FindAfterPut(s.list, Item(id, body, EvidenceOf(s.list, id)), item.id);
    case Drop(id) => FindAfterDrop(s.list, id, item.id);
    case Replace(_) =>
  }

  /** An item a human put keeps its value through every run that does not edit it or replace the list. */
  lemma {:induction false} PutSurvives(s: Section, id: string, body: string, edits: seq<Edit>)
    requires Sound(s) && forall e <- edits :: BringsDistinct(e) && !Edits(e, id)
    ensures var after := ApplyAll(Apply(s, Put(id, body)), edits);
      Sound(after) && Held(after, Item(id, body, EvidenceOf(s.list, id)))
  {
    var s0 := Apply(s, Put(id, body));
    if edits == [] {
      EditKeepsSound(s, Put(id, body));
      PutHolds(s, id, body);
    } else {
      var n := |edits| - 1;
      assert edits[n] in edits && forall e <- edits[..n] :: e in edits;
      PutSurvives(s, id, body, edits[..n]);
      EditKeepsSound(ApplyAll(s0, edits[..n]), edits[n]);
      HeldStays(ApplyAll(s0, edits[..n]), edits[n], Item(id, body, EvidenceOf(s.list, id)));
    }
  }

  /** The edit explicitly brings the id back. */
  predicate ReAdds(e: Edit, id: string)
  {
    match e
    case Put(x, _) => x == id
    case Replace(items) => exists item <- items :: item.id == id
    case _ => false
  }

  /** Gone, and kept away by a tombstone or by the whole-list mark. */
  ghost predicate Gone(s: Section, id: string)
  {
    Find(s.list, id).None? && (s.o.whole || id in s.o.suppressed)
  }

  lemma GoneStays(s: Section, e: Edit, id: string)
    requires Gone(s, id) && !ReAdds(e, id)
    ensures Gone(Apply(s, e), id)
  {
    match e
    case Regenerate(generated) =>
      if !s.o.whole { Lookup(s.list, generated, s.o, id); }
    case Put(x, body) => FindAfterPut(s.list, Item(x, body, EvidenceOf(s.list, x)), id);
    case Drop(x) => FindAfterDrop(s.list, x, id);
    case Replace(items) =>
      forall item <- Replaced(s.list, items) ensures item.id != id {
        var i :| 0 <= i < |items| && Replaced(s.list, items)[i] == item;
        assert items[i] in items;
      }
  }

  /** A removed item never returns until it is explicitly added again; no distinctness is needed. */
  lemma {:induction false} DropSurvives(s: Section, id: string, edits: seq<Edit>)
    requires Find(s.list, id).Some? && forall e <- edits :: !ReAdds(e, id)
    ensures Gone(ApplyAll(Apply(s, Drop(id)), edits), id)
  {
    if edits == [] {
      FindAfterDrop(s.list, id, id);
    } else {
      var n := |edits| - 1;
      assert edits[n] in edits && forall e <- edits[..n] :: e in edits;
      DropSurvives(s, id, edits[..n]);
      GoneStays(ApplyAll(Apply(s, Drop(id)), edits[..n]), edits[n], id);
    }
  }

  // ------------------------------------------------------ where the promise ends

  /** What stands behind the first item with the id. */
  function BehindFirst(list: seq<Item>, id: string): seq<Item>
  {
    if list == [] then [] else if list[0].id == id then list[1..] else BehindFirst(list[1..], id)
  }

  lemma {:induction false} LastAfterPut(list: seq<Item>, item: Item)
    ensures ById(PutItem(list, item), item.id)
         == if ById(BehindFirst(list, item.id), item.id).Some? then ById(BehindFirst(list, item.id), item.id) else Some(item)
  {
    if list == [] {
      assert [item][..0] == [];
    } else {
      var head := if list[0].id == item.id then item else list[0];
      var rest := if list[0].id == item.id then list[1..] else PutItem(list[1..], item);
      assert PutItem(list, item) == [head] + rest;
      ByIdInSum([head], rest, item.id);
      assert [head][..0] == [];
      if list[0].id != item.id { LastAfterPut(list[1..], item); }
    }
  }

  /**
   Without distinct ids an edit survives the next regeneration exactly when the list had no item
   of that id behind the first, or the last of them already was the edited one: the edit
   replaces the first, the merge keeps the last.
  */
  lemma PutSurvivesExactlyWhen(s: Section, id: string, body: string, generated: seq<Item>)
    requires !s.o.whole
    ensures var item := Item(id, body, EvidenceOf(s.list, id));
      (Find(Apply(Apply(s, Put(id, body)), Regenerate(generated)).list, id) == Some(item)
       <==> ById(BehindFirst(s.list, id), id) in {None, Some(item)})
  {
    var s0 := Apply(s, Put(id, body));
    Lookup(s0.list, generated, s0.o, id);
    LastAfterPut(s.list, Item(id, body, EvidenceOf(s.list, id)));
  }

  lemma DuplicateIdLosesTheEdit()
    ensures var old1, old2 := Item("p", "a", []), Item("p", "b", []);
      var s := Apply(Apply(Section([old1, old2], NO_OVERRIDES), Put("p", "edited")), Regenerate([]));
      Find(s.list, "p") == Some(old2)
  {
    var old1, old2 := Item("p", "a", []), Item("p", "b", []);
    var s0 := Apply(Section([old1, old2], NO_OVERRIDES), Put("p", "edited"));
    assert s0.list == [Item("p", "edited", []), old2];
    PutSurvivesExactlyWhen(Section([old1, old2], NO_OVERRIDES), "p", "edited", []);
    Lookup(s0.list, [], s0.o, "p");
  }

  /** A regeneration that read the section before the edit and writes it back after. */
  function FinishStale(read: Section, now: Section, generated: seq<Item>): Section
  {
    now.(list := MergeList(read.list, generated, read.o))
  }

  /** What a human put is safe from a concurrent regeneration exactly when it was already held with that very value. */
  lemma StaleRegenerationKeeps(read: Section, id: string, body: string)
    ensures var item := Item(id, body, EvidenceOf(read.list, id));
      (forall generated :: Find(FinishStale(read, Apply(read, Put(id, body)), generated).list, id) == Some(item))
      <==> if read.o.whole then Find(read.list, id) == Some(item)
           else id in read.o.items && id !in read.o.suppressed && ById(read.list, id) == Some(item)
  {
    var item := Item(id, body, EvidenceOf(read.list, id));
    var now := Apply(read, Put(id, body));
    if !read.o.whole {
      forall generated
        ensures Find(FinishStale(read, now, generated).list, id)
             == if id in read.o.suppressed then None else if id in read.o.items then ById(read.list, id) else Find(generated, id)
      {
        Lookup(read.list, generated, read.o, id);
      }
      assert Find(FinishStale(read, now, []).list, id)
          == if id in read.o.suppressed then None else if id in read.o.items then ById(read.list, id) else None;
    } else {
      assert FinishStale(read, now, []).list == read.list;
    }
  }

  /** The same race undoes a removal: the tombstone is written, yet some generated list brings the item back. */
  lemma StaleRegenerationResurrects(read: Section, id: string)
    requires Consistent(read) && Find(read.list, id).Some?
    ensures id in Apply(read, Drop(id)).o.suppressed
    ensures exists generated :: Find(FinishStale(read, Apply(read, Drop(id)), generated).list, id).Some?
  {
    HasIdIsFound(read.list, id);
    var now := Apply(read, Drop(id));
    if !read.o.whole { Lookup(read.list, read.list, read.o, id); }
    assert Find(FinishStale(read, now, read.list).list, id).Some?;
  }
}
