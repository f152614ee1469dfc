/** A company brain: the effective payload and the human overrides, under analyses and edits. */
module CompanyBrain {
  import opened Wrappers
  import opened PayloadMerge
  import opened PayloadOverrides
  import opened ListEdits

  /** A scalar section: its named fields, and the evidence only the analyzer writes. */
  datatype Fields = Fields(fields: map<string, string>, evidence: seq<string>)

  datatype Payload = Payload(
    icp: Fields, messaging: Fields, personas: seq<Item>, painPoints: seq<Item>, competitors: seq<Item>, rules: seq<Item>)

  datatype Overrides = Overrides(
    icp: bool, messaging: bool, personas: ListOverrides, painPoints: ListOverrides, competitors: ListOverrides,
    rules: ListOverrides)

  datatype Status = Draft | Ready | Failed

  datatype Brain = Brain(payload: Option<Payload>, overrides: Overrides, version: nat, status: Status)

  const EMPTY := Payload(Fields(map[], []), Fields(map[], []), [], [], [], [])

  const UNTOUCHED := Overrides(false, false, NO_OVERRIDES, NO_OVERRIDES, NO_OVERRIDES, NO_OVERRIDES)

  datatype Patch = Patch(
    icp: Option<map<string, string>>, messaging: Option<map<string, string>>, personas: Option<seq<NewItem>>,
    painPoints: Option<seq<NewItem>>, competitors: Option<seq<NewItem>>, rules: Option<seq<NewItem>>)

  /** `Analyze(None)` is an analyzer that threw; ids are as given or as newly drawn. */
  datatype Command =
    | Analyze(generated: Option<Payload>)
    | UpsertPersona(id: string, body: string)
    | RemovePersona(id: string)
    | UpsertRule(id: string, body: string)
    | PatchMessaging(fields: map<string, string>)
    | PatchBrain(patch: Patch)

  // ------------------------------------------------------------------ merging

  function MergePayload(current: Option<Payload>, g: Payload, o: Overrides): Payload
  {
    match current
    case None => g
    case Some(c) =>
      Payload(if o.icp then c.icp else g.icp,
              if o.messaging then c.messaging else g.messaging,
              MergeList(c.personas, g.personas, o.personas),
              MergeList(c.painPoints, g.painPoints, o.painPoints),
              MergeList(c.competitors, g.competitors, o.competitors),
              MergeList(c.rules, g.rules, o.rules))
  }

  function MergeAll(current: Option<Payload>, generated: seq<Payload>, o: Overrides): Option<Payload>
  {
    if generated == [] then current
    else Some(MergePayload(MergeAll(current, generated[..|generated| - 1], o), generated[|generated| - 1], o))
  }

  lemma MergePayloadForgets(current: Payload, g1: Payload, g2: Payload, o: Overrides)
    ensures MergePayload(Some(MergePayload(Some(current), g1, o)), g2, o) == MergePayload(Some(current), g2, o)
  {
    MergeForgets(current.personas, g1.personas, g2.personas, o.personas);
    MergeForgets(current.painPoints, g1.painPoints, g2.painPoints, o.painPoints);
    MergeForgets(current.competitors, g1.competitors, g2.competitors, o.competitors);
    MergeForgets(current.rules, g1.rules, g2.rules, o.rules);
  }

  /** Any number of regenerations equals the last one applied to what the human left. */
  lemma {:induction false} RegenerationsForget(current: Payload, generated: seq<Payload>, o: Overrides)
    requires generated != []
    ensures MergeAll(Some(current), generated, o) == Some(MergePayload(Some(current), generated[|generated| - 1], o))
  {
    var n := |generated| - 1;
    if n > 0 {
      RegenerationsForget(current, generated[..n], o);
      MergePayloadForgets(current, generated[n - 1], generated[n], o);
    }
  }

  // ----------------------------------------------------------------- commands

  function Effective(b: Brain): Payload
  {
    if b.payload.Some? then b.payload.value else EMPTY
  }

  function PatchFields(f: Fields, patch: Option<map<string, string>>): Fields
  {
    if patch.Some? then f.(fields := f.fields + patch.value) else f
  }

  function PatchList(s: Section, items: Option<seq<NewItem>>): Section
  {
    if items.Some? then Apply(s, Replace(items.value)) else s
  }

  function Step(b: Brain, cmd: Command): Brain
  {
    var p, o := Effective(b), b.overrides;
    match cmd
    case Analyze(generated) =>
      if generated.None? then b.(status := Failed)
      else Brain(Some(MergePayload(b.payload, generated.value, o)), o, b.version + 1, Ready)
    case UpsertPersona(id, body) =>
      var s := Apply(Section(p.personas, o.personas), Put(id, body));
      b.(payload := Some(p.(personas := s.list)), overrides := o.(personas := s.o))
    case RemovePersona(id) =>
      if Find(p.personas, id).None? then b
      else
        var s := Apply(Section(p.personas, o.personas), Drop(id));
        b.(payload := Some(p.(personas := s.list)), overrides := o.(personas := s.o))
    case UpsertRule(id, body) =>
      var s := Apply(Section(p.rules, o.rules), Put(id, body));
      b.(payload := Some(p.(rules := s.list)), overrides := o.(rules := s.o))
    case PatchMessaging(fields) =>
      b.(payload := Some(p.(messaging := PatchFields(p.messaging, Some(fields)))), overrides := o.(messaging := true))
    case PatchBrain(patch) =>
      var personas := PatchList(Section(p.personas, o.personas), patch.personas);
      var painPoints := PatchList(Section(p.painPoints, o.painPoints), patch.painPoints);
      var competitors := PatchList(Section(p.competitors, o.competitors), patch.competitors);
      var rules := PatchList(Section(p.rules, o.rules), patch.rules);
      b.(payload := Some(Payload(PatchFields(p.icp, patch.icp), PatchFields(p.messaging, patch.messaging),
                                 personas.list, painPoints.list, competitors.list, rules.list)),
         overrides := Overrides(o.icp || patch.icp.Some?, o.messaging || patch.messaging.Some?,
                                personas.o, painPoints.o, competitors.o, rules.o))
  }

  function Run(cmds: seq<Command>): Brain
  {
    if cmds == [] then Brain(None, UNTOUCHED, 0, Draft) else Step(Run(cmds[..|cmds| - 1]), cmds[|cmds| - 1])
  }

  function RunFrom(b: Brain, cmds: seq<Command>): Brain
  {
    if cmds == [] then b else Step(RunFrom(b, cmds[..|cmds| - 1]), cmds[|cmds| - 1])
  }

  // ------------------------------------------- a brain is four sections and two

  datatype ListName = Personas | PainPoints | Competitors | Rules

  function SectionOf(b: Brain, name: ListName): Section
  {
    var p, o := Effective(b), b.overrides;
    match name
    case Personas => Section(p.personas, o.personas)
    case PainPoints => Section(p.painPoints, o.painPoints)
    case Competitors => Section(p.competitors, o.competitors)
    case Rules => Section(p.rules, o.rules)
  }

  function GeneratedList(g: Payload, name: ListName): seq<Item>
  {
    match name
    case Personas => g.personas
    case PainPoints => g.painPoints
    case Competitors => g.competitors
    case Rules => g.rules
  }

  function PatchedList(patch: Patch, name: ListName): Option<seq<NewItem>>
  {
    match name
    case Personas => patch.personas
    case PainPoints => patch.painPoints
    case Competitors => patch.competitors
    case Rules => patch.rules
  }

  /** What a command does to one list, if anything. */
  function EditOf(cmd: Command, name: ListName): Option<Edit>
  {
    match cmd
    case Analyze(g) => if g.Some? then Some(Regenerate(GeneratedList(g.value, name))) else None
    case UpsertPersona(id, body) => if name == Personas then Some(Put(id, body)) else None
    case RemovePersona(id) => if name == Personas then Some(Drop(id)) else None
    case UpsertRule(id, body) => if name == Rules then Some(Put(id, body)) else None
    case PatchMessaging(_) => None
    case PatchBrain(patch) =>
      if PatchedList(patch, name).Some? then Some(Replace(PatchedList(patch, name).value)) else None
  }

  /** No payload, no overrides: an analysis without a payload to merge into cannot ignore an edit. */
  predicate OverridesNeedPayload(b: Brain)
  {
    b.payload.None? ==> b.overrides == UNTOUCHED
  }

  lemma MergeUntouched(generated: seq<Item>)
    ensures MergeList([], generated, NO_OVERRIDES) == generated
  {
    NothingProtected([], generated, NO_OVERRIDES);
    assert Kept([], [], generated, NO_OVERRIDES) == [];
  }

  /** Each list evolves by its own edits, whatever happens to the rest of the brain. */
  lemma StepOnList(b: Brain, cmd: Command, name: ListName)
    requires OverridesNeedPayload(b)
    ensures OverridesNeedPayload(Step(b, cmd))
    ensures SectionOf(Step(b, cmd), name)
         == if EditOf(cmd, name).Some? then Apply(SectionOf(b, name), EditOf(cmd, name).value) else SectionOf(b, name)
  {
    if cmd.Analyze? && cmd.generated.Some? && b.payload.None? {
      MergeUntouched(GeneratedList(cmd.generated.value, name));
    }
  }
}
