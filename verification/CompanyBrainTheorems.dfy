/** Human intent over every run of analyses and edits of a brain. */
module CompanyBrainTheorems {
  import opened Wrappers
  import opened PayloadMerge
  import opened PayloadOverrides
  import opened ListEdits
  import opened CompanyBrain

  ghost predicate BrainConsistent(b: Brain)
  {
    OverridesNeedPayload(b) && forall name :: Consistent(SectionOf(b, name))
  }

  /** In every reachable brain protected ids are present, and tombstones absent unless the list is whole. */
  lemma {:induction false} RunConsistent(cmds: seq<Command>)
    ensures BrainConsistent(Run(cmds))
  {
    if cmds == [] {
    } else {
      var b, cmd := Run(cmds[..|cmds| - 1]), cmds[|cmds| - 1];
      RunConsistent(cmds[..|cmds| - 1]);
      forall name: ListName ensures Consistent(SectionOf(Step(b, cmd), name)) {
        StepOnList(b, cmd, name);
        if EditOf(cmd, name).Some? { EditKeepsConsistent(SectionOf(b, name), EditOf(cmd, name).value); }
      }
      StepOnList(b, cmd, Personas);
    }
  }

  /** The edits a run makes to one list, in order. */
  function EditsOf(cmds: seq<Command>, name: ListName): seq<Edit>
  {
    if cmds == [] then []
    else
      var last := EditOf(cmds[|cmds| - 1], name);
      EditsOf(cmds[..|cmds| - 1], name) + (if last.Some? then [last.value] else [])
  }

  /** A list depends on its own edits only: a run on the brain is that list's run. */
  lemma {:induction false} ListRunsAlone(b: Brain, cmds: seq<Command>, name: ListName)
    requires OverridesNeedPayload(b)
    ensures OverridesNeedPayload(RunFrom(b, cmds))
    ensures SectionOf(RunFrom(b, cmds), name) == ApplyAll(SectionOf(b, name), EditsOf(cmds, name))
  {
    if cmds == [] {
    } else {
      var n := |cmds| - 1;
      ListRunsAlone(b, cmds[..n], name);
      StepOnList(RunFrom(b, cmds[..n]), cmds[n], name);
      var before, edit := EditsOf(cmds[..n], name), EditOf(cmds[n], name);
      if edit.Some? {
        assert EditsOf(cmds, name) == before + [edit.value];
        assert (before + [edit.value])[..|before|] == before;
      } else {
        assert EditsOf(cmds, name) == before;
      }
    }
  }

  lemma {:induction false} EditsComeFromCommands(cmds: seq<Command>, name: ListName)
    ensures forall e <- EditsOf(cmds, name) :: exists cmd <- cmds :: EditOf(cmd, name) == Some(e)
  {
    if cmds == [] {
    } else {
      var n := |cmds| - 1;
      EditsComeFromCommands(cmds[..n], name);
      forall e <- EditsOf(cmds, name) ensures exists cmd <- cmds :: EditOf(cmd, name) == Some(e) {
        if e in EditsOf(cmds[..n], name) {
          var cmd :| cmd in cmds[..n] && EditOf(cmd, name) == Some(e);
          assert cmd in cmds;
        } else {
          assert EditOf(cmds[n], name) == Some(e);
        }
      }
    }
  }

  /** Analyzer and patch lists have distinct ids. */
  predicate BringsDistinctIds(cmd: Command, name: ListName)
  {
    EditOf(cmd, name).Some? ==> BringsDistinct(EditOf(cmd, name).value)
  }

  predicate EditsItem(cmd: Command, name: ListName, id: string)
  {
    EditOf(cmd, name).Some? && Edits(EditOf(cmd, name).value, id)
  }

  lemma {:induction false} RunSound(cmds: seq<Command>, name: ListName)
    requires forall cmd <- cmds :: BringsDistinctIds(cmd, name)
    ensures OverridesNeedPayload(Run(cmds)) && Sound(SectionOf(Run(cmds), name))
  {
    if cmds == [] {
    } else {
      var n := |cmds| - 1;
      assert cmds[n] in cmds && forall cmd <- cmds[..n] :: cmd in cmds;
      RunSound(cmds[..n], name);
      StepOnList(Run(cmds[..n]), cmds[n], name);
      if EditOf(cmds[n], name).Some? { EditKeepsSound(SectionOf(Run(cmds[..n]), name), EditOf(cmds[n], name).value); }
    }
  }

  /**
   A persona a human saved keeps its value, evidence included, through any later run that edits
   neither that persona nor the whole list.
  */
  lemma SavedPersonaSurvives(before: seq<Command>, id: string, body: string, after: seq<Command>)
    requires forall cmd <- before :: BringsDistinctIds(cmd, Personas)
    requires forall cmd <- after :: BringsDistinctIds(cmd, Personas) && !EditsItem(cmd, Personas, id)
    ensures var b := Run(before);
      Find(Effective(RunFrom(Step(b, UpsertPersona(id, body)), after)).personas, id)
        == Some(Item(id, body, EvidenceOf(Effective(b).personas, id)))
  {
    SavedItemSurvives(before, Personas, id, body, UpsertPersona(id, body), after);
  }

  /** The same for a qualification rule. */
  lemma SavedRuleSurvives(before: seq<Command>, id: string, body: string, after: seq<Command>)
    requires forall cmd <- before :: BringsDistinctIds(cmd, Rules)
    requires forall cmd <- after :: BringsDistinctIds(cmd, Rules) && !EditsItem(cmd, Rules, id)
    ensures var b := Run(before);
      Find(Effective(RunFrom(Step(b, UpsertRule(id, body)), after)).rules, id)
        == Some(Item(id, body, EvidenceOf(Effective(b).rules, id)))
  {
    SavedItemSurvives(before, Rules, id, body, UpsertRule(id, body), after);
  }

  lemma SavedItemSurvives(before: seq<Command>, name: ListName, id: string, body: string, save: Command, after: seq<Command>)
    requires EditOf(save, name) == Some(Put(id, body))
    requires forall cmd <- before :: BringsDistinctIds(cmd, name)
    requires forall cmd <- after :: BringsDistinctIds(cmd, name) && !EditsItem(cmd, name, id)
    ensures var b := Run(before);
      Find(SectionOf(RunFrom(Step(b, save), after), name).list, id)
        == Some(Item(id, body, EvidenceOf(SectionOf(b, name).list, id)))
  {
    var b := Run(before);
    RunSound(before, name);
    StepOnList(b, save, name);
    ListRunsAlone(Step(b, save), after, name);
    EditsComeFromCommands(after, name);
    PutSurvives(SectionOf(b, name), id, body, EditsOf(after, name));
  }

  /** The command explicitly brings the persona back. */
  predicate ReAddsPersona(cmd: Command, id: string)
  {
    EditOf(cmd, Personas).Some? && ReAdds(EditOf(cmd, Personas).value, id)
  }

  /** A removed persona does not return, whatever is generated, until a command adds it again. */
  lemma RemovedPersonaStaysAway(before: seq<Command>, id: string, after: seq<Command>)
    requires Find(Effective(Run(before)).personas, id).Some?
    requires forall cmd <- after :: !ReAddsPersona(cmd, id)
    ensures Find(Effective(RunFrom(Step(Run(before), RemovePersona(id)), after)).personas, id).None?
  {
    var b := Run(before);
    RunConsistent(before);
    StepOnList(b, RemovePersona(id), Personas);
    ListRunsAlone(Step(b, RemovePersona(id)), after, Personas);
    EditsComeFromCommands(after, Personas);
    DropSurvives(SectionOf(b, Personas), id, EditsOf(after, Personas));
  }

  // ---------------------------------------------------------- scalar sections

  predicate EditsMessaging(cmd: Command)
  {
    cmd.PatchMessaging? || (cmd.PatchBrain? && cmd.patch.messaging.Some?)
  }

  /** An edited messaging summary stays as edited until a human edits it again. */
  lemma {:induction false} EditedMessagingStays(b: Brain, cmds: seq<Command>)
    requires OverridesNeedPayload(b) && b.overrides.messaging && forall cmd <- cmds :: !EditsMessaging(cmd)
    ensures OverridesNeedPayload(RunFrom(b, cmds)) && RunFrom(b, cmds).overrides.messaging
    ensures Effective(RunFrom(b, cmds)).messaging == Effective(b).messaging
  {
    if cmds == [] {
    } else {
      var n := |cmds| - 1;
      assert cmds[n] in cmds && forall cmd <- cmds[..n] :: cmd in cmds;
      EditedMessagingStays(b, cmds[..n]);
    }
  }

  /** The same for the ICP. */
  lemma {:induction false} EditedIcpStays(b: Brain, cmds: seq<Command>)
    requires OverridesNeedPayload(b) && b.overrides.icp
    requires forall cmd <- cmds :: !(cmd.PatchBrain? && cmd.patch.icp.Some?)
    ensures OverridesNeedPayload(RunFrom(b, cmds)) && RunFrom(b, cmds).overrides.icp
    ensures Effective(RunFrom(b, cmds)).icp == Effective(b).icp
  {
    if cmds == [] {
    } else {
      var n := |cmds| - 1;
      assert cmds[n] in cmds && forall cmd <- cmds[..n] :: cmd in cmds;
      EditedIcpStays(b, cmds[..n]);
    }
  }

  /** Once a scalar section is overridden, its evidence stays that of the last analysis it accepted, through every edit. */
  lemma {:induction false} EvidenceIsNeverEdited(b: Brain, cmds: seq<Command>)
    requires OverridesNeedPayload(b)
    ensures var b' := RunFrom(b, cmds);
      && OverridesNeedPayload(b')
      && (b.overrides.icp ==> b'.overrides.icp && Effective(b').icp.evidence == Effective(b).icp.evidence)
      && (b.overrides.messaging ==> b'.overrides.messaging && Effective(b').messaging.evidence == Effective(b).messaging.evidence)
  {
    if cmds == [] {
    } else {
      EvidenceIsNeverEdited(b, cmds[..|cmds| - 1]);
    }
  }

  // ------------------------------------------------ regeneration history is moot

  /** In every reachable brain, a series of analyses leaves what the last one alone would have. */
  lemma AnalysesForget(before: seq<Command>, generated: seq<Payload>)
    requires generated != []
    ensures var b := Run(before);
      MergeAll(b.payload, generated, b.overrides) == Some(MergePayload(b.payload, generated[|generated| - 1], b.overrides))
  {
    var b := Run(before);
    RunConsistent(before);
    if b.payload.Some? {
      RegenerationsForget(b.payload.value, generated, b.overrides);
    } else {
      UntouchedForgets(generated);
    }
  }

  lemma {:induction false} UntouchedForgets(generated: seq<Payload>)
    requires generated != []
    ensures MergeAll(None, generated, UNTOUCHED) == Some(generated[|generated| - 1])
  {
    var n := |generated| - 1;
    if n > 0 {
      UntouchedForgets(generated[..n]);
      var a, g := generated[n - 1], generated[n];
      forall name ensures MergeList(GeneratedList(a, name), GeneratedList(g, name), NO_OVERRIDES) == GeneratedList(g, name) {
        NothingProtected(GeneratedList(a, name), GeneratedList(g, name), NO_OVERRIDES);
      }
      assert MergePayload(Some(a), g, UNTOUCHED).personas == GeneratedList(g, Personas)
        && MergePayload(Some(a), g, UNTOUCHED).painPoints == GeneratedList(g, PainPoints)
        && MergePayload(Some(a), g, UNTOUCHED).competitors == GeneratedList(g, Competitors)
        && MergePayload(Some(a), g, UNTOUCHED).rules == GeneratedList(g, Rules);
    }
  }
}
