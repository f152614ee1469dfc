/** The brain row, edited in place by the service's methods. */
module CompanyBrainService {
  import opened Wrappers
  import opened PayloadMerge
  import opened PayloadOverrides
  import opened ListEdits
  import opened CompanyBrain

  /** Writing at the found index, or pushing, is PutItem. */
  lemma {:induction false} PutAtIndex(list: seq<Item>, item: Item)
    ensures PutItem(list, item) ==
      var at := IndexOf(list, item.id);
      if at < |list| then list[at := item] else list + [item]
  {
    if list != [] && list[0].id != item.id {
      var rest := list[1..];
      PutAtIndex(rest, item);
      var at := IndexOf(rest, item.id);
      assert IndexOf(list, item.id) == 1 + at;
      assert list == [list[0]] + rest;
      if at < |rest| {
        assert list[1 + at := item] == [list[0]] + rest[at := item];
      } else {
        assert list + [item] == [list[0]] + (rest + [item]);
      }
    }
  }

  /** `findIndex`, with the length for "not found". */
  function IndexOf(list: seq<Item>, id: string): (at: nat)
    ensures at <= |list|
    ensures at < |list| ==> list[at].id == id && Find(list, id) == Some(list[at])
    ensures at == |list| <==> Find(list, id).None?
  {
    if list == [] || list[0].id == id then 0 else 1 + IndexOf(list[1..], id)
  }

  lemma {:induction false} DropNothing(list: seq<Item>, id: string)
    ensures |DropItem(list, id)| == |list| <==> Find(list, id).None?
    ensures |DropItem(list, id)| <= |list|
  {
    if list == [] {
    } else {
      var n := |list| - 1;
      DropNothing(list[..n], id);
      assert list == list[..n] + [list[n]];
      FindLast(list[..n], list[n], id);
      hide Find;
    }
  }

  /** Write over the item with the id, keeping its evidence, or push a new one. */
  method UpsertItem(list: seq<Item>, id: string, body: string) returns (next: seq<Item>)
    ensures next == PutItem(list, Item(id, body, EvidenceOf(list, id)))
  {
    var at := IndexOf(list, id);
    var item := Item(id, body, if at < |list| then list[at].evidence else []);
    PutAtIndex(list, item);
    if at < |list| {
      next := list[at := item];
    } else {
      next := list + [item];
    }
  }

  /** Replace the list and mark it as human-controlled, if the patch has it. */
  method PatchItems(list: seq<Item>, o: ListOverrides, items: Option<seq<NewItem>>) returns (next: seq<Item>, marked: ListOverrides)
    ensures Section(next, marked) == PatchList(Section(list, o), items)
  {
    next, marked := list, o;
    if items.Some? {
      next := Replaced(list, items.value);
      marked := MarkWholeInLoop(o, Ids(next), Ids(list));
    }
  }

  class CompanyBrainService {
    var payload: Option<Payload>
    var overrides: Overrides
    var version: nat
    var status: Status

    function View(): Brain
      reads this
    {
      Brain(payload, overrides, version, status)
    }

    constructor ()
      ensures View() == Run([])
    {
      payload, overrides, version, status := None, UNTOUCHED, 0, Draft;
    }

    method ParsePayload() returns (p: Payload)
      ensures p == Effective(View())
    {
      p := EMPTY;
      if payload.Some? {
        p := payload.value;
      }
    }

    method RunAnalysis(generated: Option<Payload>)
      modifies this
      ensures View() == Step(old(View()), Analyze(generated))
    {
      if generated.None? {
        status := Failed;
        return;
      }
      var merged := generated.value;
      if payload.Some? {
        var current := payload.value;
        if overrides.icp {
          merged := merged.(icp := current.icp);
        }
        if overrides.messaging {
          merged := merged.(messaging := current.messaging);
        }
        var personas := MergeInLoops(current.personas, merged.personas, overrides.personas);
        var painPoints := MergeInLoops(current.painPoints, merged.painPoints, overrides.painPoints);
        var competitors := MergeInLoops(current.competitors, merged.competitors, overrides.competitors);
        var rules := MergeInLoops(current.rules, merged.rules, overrides.rules);
        merged := merged.(personas := personas, painPoints := painPoints, competitors := competitors, rules := rules);
      }
      payload, version, status := Some(merged), version + 1, Ready;
    }

    method UpsertPersona(id: string, body: string)
      modifies this
      ensures View() == Step(old(View()), CompanyBrain.UpsertPersona(id, body))
    {
      var p := ParsePayload();
      var personas := UpsertItem(p.personas, id, body);
      payload := Some(p.(personas := personas));
      overrides := overrides.(personas := MarkItem(overrides.personas, id));
    }

    method RemovePersona(id: string) returns (found: bool)
      modifies this
      ensures View() == Step(old(View()), CompanyBrain.RemovePersona(id))
      ensures found <==> Find(old(Effective(View())).personas, id).Some?
    {
      var p := ParsePayload();
      var beforeCount := |p.personas|;
      DropNothing(p.personas, id);
      p := p.(personas := DropItem(p.personas, id));
      found := |p.personas| != beforeCount;
      if found {
        payload := Some(p);
        overrides := overrides.(personas := MarkSuppressed(overrides.personas, id));
      }
    }

    method UpsertQualificationRule(id: string, body: string)
      modifies this
      ensures View() == Step(old(View()), UpsertRule(id, body))
    {
      var p := ParsePayload();
      var rules := UpsertItem(p.rules, id, body);
      payload := Some(p.(rules := rules));
      overrides := overrides.(rules := MarkItem(overrides.rules, id));
    }

    method PatchMessaging(fields: map<string, string>)
      modifies this
      ensures View() == Step(old(View()), CompanyBrain.PatchMessaging(fields))
    {
      var p := ParsePayload();
      p := p.(messaging := Fields(p.messaging.fields + fields, p.messaging.evidence));
      payload := Some(p);
      overrides := overrides.(messaging := true);
    }

    /** Section after section; each list patch replaces the list and marks it as human-controlled. */
    method PatchBrain(patch: Patch)
      modifies this
      ensures View() == Step(old(View()), CompanyBrain.PatchBrain(patch))
    {
      var p := ParsePayload();
      var o := overrides;
      if patch.icp.Some? {
        p := p.(icp := Fields(p.icp.fields + patch.icp.value, p.icp.evidence));
        o := o.(icp := true);
      }
      if patch.messaging.Some? {
        p := p.(messaging := Fields(p.messaging.fields + patch.messaging.value, p.messaging.evidence));
        o := o.(messaging := true);
      }
      var personas, o1 := PatchItems(p.personas, o.personas, patch.personas);
      var painPoints, o2 := PatchItems(p.painPoints, o.painPoints, patch.painPoints);
      var competitors, o3 := PatchItems(p.competitors, o.competitors, patch.competitors);
      var rules, o4 := PatchItems(p.rules, o.rules, patch.rules);
      p := p.(personas := personas, painPoints := painPoints, competitors := competitors, rules := rules);
      o := o.(personas := o1, painPoints := o2, competitors := o3, rules := o4);
      payload, overrides := Some(p), o;
    }
  }
}
