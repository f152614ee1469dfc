/** What an edit of a brain puts there, and that it is still there after any later analyses. */
module BrainEdits {
  import opened Wrappers
  import opened PayloadMerge
  import opened PayloadOverrides
  import opened ListEdits
  import opened CompanyBrain
  import opened CompanyBrainTheorems

  // ---------------------------------------------------------- scalar sections

  /** Every given field has its new value, every other one its old, and the evidence is the old one. */
  ghost predicate Edited(old_: Fields, given: map<string, string>, new_: Fields)
  {
    && (forall k <- given :: k in new_.fields && new_.fields[k] == given[k])
    && (forall k <- old_.fields | k !in given :: k in new_.fields && new_.fields[k] == old_.fields[k])
    && (forall k <- new_.fields :: k in given || k in old_.fields)
    && new_.evidence == old_.evidence
  }

  /** A patched messaging section holds what was given through every later run without a messaging edit. */
  lemma PatchedMessagingHolds(b: Brain, fields: map<string, string>, after: seq<Command>)
    requires OverridesNeedPayload(b) && forall cmd <- after :: !EditsMessaging(cmd)
    ensures Edited(Effective(b).messaging, fields, Effective(RunFrom(Step(b, PatchMessaging(fields)), after)).messaging)
  {
    EditedMessagingStays(Step(b, PatchMessaging(fields)), after);
  }

  /** The same for the messaging part of a whole patch. */
  lemma PatchedBrainMessagingHolds(b: Brain, patch: Patch, after: seq<Command>)
    requires OverridesNeedPayload(b) && patch.messaging.Some? && forall cmd <- after :: !EditsMessaging(cmd)
    ensures Edited(Effective(b).messaging, patch.messaging.value, Effective(RunFrom(Step(b, PatchBrain(patch)), after)).messaging)
  {
    EditedMessagingStays(Step(b, PatchBrain(patch)), after);
  }

  /** And for its ICP part. */
  lemma PatchedIcpHolds(b: Brain, patch: Patch, after: seq<Command>)
    requires OverridesNeedPayload(b) && patch.icp.Some?
    requires forall cmd <- after :: !EditsIcp(cmd)
    ensures Edited(Effective(b).icp, patch.icp.value, Effective(RunFrom(Step(b, PatchBrain(patch)), after)).icp)
  {
    EditedIcpStays(Step(b, PatchBrain(patch)), after);
  }

  /** A command that does not give a scalar section leaves an overridden one alone, and an analysis replaces the others whole. */
  lemma SectionsFollowTheirOwnEdits(b: Brain, cmd: Command)
    requires OverridesNeedPayload(b)
    ensures !cmd.Analyze? && !EditsMessaging(cmd) ==> Effective(Step(b, cmd)).messaging == Effective(b).messaging
    ensures !EditsMessaging(cmd) ==> Step(b, cmd).overrides.messaging == b.overrides.messaging
    ensures !cmd.Analyze? && !EditsIcp(cmd) ==> Effective(Step(b, cmd)).icp == Effective(b).icp
    ensures !EditsIcp(cmd) ==> Step(b, cmd).overrides.icp == b.overrides.icp
    ensures cmd.Analyze? && cmd.generated.Some? ==>
      Effective(Step(b, cmd)).messaging == if b.overrides.messaging then Effective(b).messaging else cmd.generated.value.messaging
    ensures cmd.Analyze? && cmd.generated.Some? ==>
      Effective(Step(b, cmd)).icp == if b.overrides.icp then Effective(b).icp else cmd.generated.value.icp
    ensures cmd == Analyze(None) ==> Step(b, cmd) == b.(status := Status.Failed)
  {}

  predicate EditsIcp(cmd: Command)
  {
    cmd.PatchBrain? && cmd.patch.icp.Some?
  }

  // -------------------------------------------------------------------- lists

  /** The evidence an edit keeps: that of the first item of the id, or none. */
  ghost predicate EvidenceBefore(list: seq<Item>, id: string, evidence: seq<string>)
  {
    || (evidence == [] && forall item <- list :: item.id != id)
    || exists i | 0 <= i < |list| :: list[i].id == id && list[i].evidence == evidence && forall j | 0 <= j < i :: list[j].id != id
  }

  lemma {:induction false} FindsFirst(list: seq<Item>, id: string) returns (i: nat)
    requires Find(list, id).Some?
    ensures i < |list| && Find(list, id) == Some(list[i]) && list[i].id == id && forall j | 0 <= j < i :: list[j].id != id
  {
    if list[0].id == id {
      i := 0;
    } else {
      i := FindsFirst(list[1..], id);
      i := i + 1;
    }
  }

  lemma EvidenceIsTheFirsts(list: seq<Item>, id: string)
    ensures EvidenceBefore(list, id, EvidenceOf(list, id))
  {
    if Find(list, id).Some? {
      var i := FindsFirst(list, id);
    }
  }

  /** A saved persona has the body given and the evidence it had, through any later run that edits neither it nor the list. */
  lemma SavedPersonaHolds(before: seq<Command>, id: string, body: string, after: seq<Command>)
    requires forall cmd <- before :: BringsDistinctIds(cmd, Personas)
    requires forall cmd <- after :: BringsDistinctIds(cmd, Personas) && !EditsItem(cmd, Personas, id)
    ensures var b := Run(before);
      exists evidence :: EvidenceBefore(Effective(b).personas, id, evidence)
        && Find(Effective(RunFrom(Step(b, UpsertPersona(id, body)), after)).personas, id) == Some(Item(id, body, evidence))
  {
    SavedPersonaSurvives(before, id, body, after);
    EvidenceIsTheFirsts(Effective(Run(before)).personas, id);
  }

  /** The same for a qualification rule. */
  lemma SavedRuleHolds(before: seq<Command>, id: string, body: string, after: seq<Command>)
    requires forall cmd <- before :: BringsDistinctIds(cmd, Rules)
    requires forall cmd <- after :: BringsDistinctIds(cmd, Rules) && !EditsItem(cmd, Rules, id)
    ensures var b := Run(before);
      exists evidence :: EvidenceBefore(Effective(b).rules, id, evidence)
        && Find(Effective(RunFrom(Step(b, UpsertRule(id, body)), after)).rules, id) == Some(Item(id, body, evidence))
  {
    SavedRuleSurvives(before, id, body, after);
    EvidenceIsTheFirsts(Effective(Run(before)).rules, id);
  }

  /** The list holds the given items in the given order, each with its own evidence or that of the old item of its id. */
  ghost predicate Holds(old_: seq<Item>, items: seq<NewItem>, list: seq<Item>)
  {
    |list| == |items| && forall i | 0 <= i < |items| ::
      && list[i].id == items[i].id && list[i].body == items[i].body
      && (match items[i].evidence
          case Some(evidence) => list[i].evidence == evidence
          case None => EvidenceBefore(old_, items[i].id, list[i].evidence))
  }

  lemma ReplacedHolds(list: seq<Item>, items: seq<NewItem>)
    ensures Holds(list, items, Replaced(list, items))
  {
    forall i | 0 <= i < |items| ensures EvidenceBefore(list, items[i].id, EvidenceOf(list, items[i].id)) {
      EvidenceIsTheFirsts(list, items[i].id);
    }
    hide EvidenceBefore, EvidenceOf;
  }

  lemma {:induction false} WholeStays(s: Section, edits: seq<Edit>)
    requires s.o.whole && forall e <- edits :: e.Regenerate?
    ensures ApplyAll(s, edits) == s
  {
    if edits == [] {
    } else {
      assert edits[|edits| - 1] in edits && forall e <- edits[..|edits| - 1] :: e in edits;
      WholeStays(s, edits[..|edits| - 1]);
    }
  }

  /** A list a human replaced is what was given, through any later run that edits nothing in it. */
  lemma ReplacedListHolds(b: Brain, patch: Patch, name: ListName, after: seq<Command>)
    requires OverridesNeedPayload(b) && PatchedList(patch, name).Some?
    requires forall cmd <- after :: EditOf(cmd, name).None? || EditOf(cmd, name).value.Regenerate?
    ensures Holds(SectionOf(b, name).list, PatchedList(patch, name).value,
                  SectionOf(RunFrom(Step(b, PatchBrain(patch)), after), name).list)
  {
    var s, items := SectionOf(b, name), PatchedList(patch, name).value;
    var s1 := Apply(s, Replace(items));
    StepOnList(b, PatchBrain(patch), name);
    ListRunsAlone(Step(b, PatchBrain(patch)), after, name);
    EditsComeFromCommands(after, name);
    WholeStays(s1, EditsOf(after, name));
    ReplacedHolds(s.list, items);
  }

  /** Replacing a list protects exactly the new ids, buries the dropped ones beside the older tombstones, and marks it whole. */
  lemma ReplaceMarks(s: Section, items: seq<NewItem>, id: string)
    ensures var s1 := Apply(s, Replace(items));
      && (id in s1.o.items <==> exists item <- items :: item.id == id)
      && (id in s1.o.suppressed <==> id in s.o.suppressed || (HasId(s.list, id) && forall item <- items :: item.id != id))
      && s1.o.whole
  {
    var list := Replaced(s.list, items);
    assert id in Ids(list) <==> exists item <- items :: item.id == id by {
      if item :| item in items && item.id == id {
        var i :| 0 <= i < |items| && items[i] == item;
        assert Ids(list)[i] == id;
      }
      if id in Ids(list) {
        var i :| 0 <= i < |list| && Ids(list)[i] == id;
        assert items[i] in items && items[i].id == id;
      }
    }
    assert id in Ids(s.list) <==> HasId(s.list, id) by {
      if item :| item in s.list && item.id == id {
        var i :| 0 <= i < |s.list| && s.list[i] == item;
        assert Ids(s.list)[i] == id;
      }
      if id in Ids(s.list) {
        var i :| 0 <= i < |s.list| && Ids(s.list)[i] == id;
        assert s.list[i] in s.list;
      }
    }
  }

  /** Removing a persona that is not there changes nothing. */
  lemma RemovingNobody(b: Brain, id: string)
    requires forall item <- Effective(b).personas :: item.id != id
    ensures Step(b, RemovePersona(id)) == b
  {}

  // --------------------------------------------------------- version and status

  /** How many analyses of the run brought a payload. */
  function Analyses(cmds: seq<Command>): nat
  {
    if cmds == [] then 0
    else
      var last := cmds[|cmds| - 1];
      Analyses(cmds[..|cmds| - 1]) + (if last.Analyze? && last.generated.Some? then 1 else 0)
  }

  /** The version counts the analyses that went through; human edits do not move it. */
  lemma {:induction false} VersionCountsAnalyses(cmds: seq<Command>)
    ensures Run(cmds).version == Analyses(cmds)
  {
    if cmds == [] {
    } else {
      VersionCountsAnalyses(cmds[..|cmds| - 1]);
    }
  }

  /** The status is that of the last analysis: ready if it brought a payload, failed if it threw, draft before the first. */
  lemma {:induction false} StatusIsTheLastAnalysis(cmds: seq<Command>)
    ensures Run(cmds).status == Draft <==> forall cmd <- cmds :: !cmd.Analyze?
    ensures cmds != [] && cmds[|cmds| - 1].Analyze? ==>
      Run(cmds).status == if cmds[|cmds| - 1].generated.Some? then Ready else Status.Failed
    ensures cmds != [] && !cmds[|cmds| - 1].Analyze? ==> Run(cmds).status == Run(cmds[..|cmds| - 1]).status
  {
    if cmds == [] {
    } else {
      var n := |cmds| - 1;
      StatusIsTheLastAnalysis(cmds[..n]);
      assert cmds == cmds[..n] + [cmds[n]];
    }
  }
}
