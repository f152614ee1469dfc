/**
 From a proposed candidate to a CRM company. Two records remember a created company, the
 checkpoint and the candidate row, and any CRM call or database write after it may fail.
*/
module ProspectCreation {
  import opened Wrappers
  import opened CompanyDedupe

  datatype Status = Proposed | Approved | Rejected | Created | Duplicate | Failed

  datatype Flag = FlagNew | FlagExact | FlagPossible

  datatype Candidate = Candidate(
    domain: string, name: string, status: Status, flag: Flag, existing: Option<string>, created: Option<string>)

  /**
   What happened, in order. `Looked` is a create call whose CRM lookup succeeded; `Made` a
   company the CRM created, with whether its id reached the checkpoint and the row.
  */
  datatype Event =
    | Approval(c: nat)
    | Looked(c: nat, answer: Match)
    | Made(c: nat, id: string, checkpointed: bool, rowed: bool)

  datatype Desk = Desk(candidates: seq<Candidate>, checkpoints: map<nat, string>, trace: seq<Event>)

  /** How the create call's writes end; each may be lost, or committed with its acknowledgement lost. */
  datatype CreateEnv = CreateEnv(
    recoverWrite: bool, lookup: Option<(Option<seq<Company>>, Option<seq<Company>>)>, markWrite: bool,
    effect: bool, response: bool, id: string, checkpointWrite: bool, checkpointAck: bool,
    rowWrite: bool, rowAck: bool, audit: bool, catchWrite: bool)

  datatype Call =
    | Propose(domain: string, name: string, companies: seq<Company>)
    | Approve(c: nat)
    | Reject(c: nat)
    | Create(c: nat, env: CreateEnv)

  function FlagOf(m: Match): Flag
  {
    match m
    case New => FlagNew
    case Exact(_) => FlagExact
    case Possible(_) => FlagPossible
  }

  function ExistingOf(m: Match): Option<string>
  {
    if m.New? then None else Some(m.existing)
  }

  function SetRow(s: Desk, c: nat, row: Candidate): Desk
    requires c < |s.candidates|
  {
    s.(candidates := s.candidates[c := row])
  }

  function Log(s: Desk, e: Event): Desk
  {
    s.(trace := s.trace + [e])
  }

  // -------------------------------------------------------------------- calls

  function ProposeCandidate(s: Desk, domain: string, name: string, companies: seq<Company>): Desk
  {
    var m := Dedupe(domain, name, companies);
    s.(candidates := s.candidates
         + [Candidate(domain, name, if m.Exact? then Duplicate else Proposed, FlagOf(m), ExistingOf(m), None)])
  }

  predicate Approvable(row: Candidate)
  {
    row.status in {Proposed, Failed} && row.flag == FlagNew
  }

  function ApproveCandidate(s: Desk, c: nat): Desk
  {
    if c >= |s.candidates| || !Approvable(s.candidates[c]) then s
    else Log(SetRow(s, c, s.candidates[c].(status := Approved)), Approval(c))
  }

  function RejectCandidate(s: Desk, c: nat): Desk
  {
    if c >= |s.candidates| || s.candidates[c].status in {Created, Rejected} then s
    else SetRow(s, c, s.candidates[c].(status := Rejected))
  }

  /** An id the CRM really gave; an empty one counts as none. */
  function Truthy(id: Option<string>): Option<string>
  {
    if id == Some("") then None else id
  }

  /** The company already known for the candidate: the checkpoint's, else the row's. */
  function Known(s: Desk, c: nat): Option<string>
    requires c < |s.candidates|
  {
    var checkpointed := Truthy(if c in s.checkpoints then Some(s.checkpoints[c]) else None);
    if checkpointed.Some? then checkpointed else Truthy(s.candidates[c].created)
  }

  /** The fail-closed load of this candidate's lookups; None when one threw. */
  function Lookups(row: Candidate, env: CreateEnv): Option<seq<Company>>
  {
    if env.lookup.None? then None
    else
      var l := Lookup(row.domain, env.lookup.value.0, env.lookup.value.1);
      if Throws(l) then None else Some(Load([l]))
  }

  function CreateApproved(s: Desk, c: nat, env: CreateEnv): Desk
  {
    if c >= |s.candidates| || s.candidates[c].status !in {Approved, Failed} then s
    else
      var row := s.candidates[c];
      var known := Known(s, c);
      if known.Some? then
        if env.recoverWrite then SetRow(s, c, row.(status := Created, created := known)) else s
      else
        LookupAndMake(s, c, env)
  }

  /** The fail-closed dedupe, and the company only if nothing matches. */
  function LookupAndMake(s: Desk, c: nat, env: CreateEnv): Desk
    requires c < |s.candidates|
  {
    var row := s.candidates[c];
    match Lookups(row, env)
    case None => if env.markWrite then SetRow(s, c, row.(status := Failed)) else s
    case Some(companies) =>
      var m := Dedupe(row.domain, row.name, companies);
      var s1 := Log(s, Looked(c, m));
      match m
      case Exact(existing) =>
        if env.markWrite
        then SetRow(s1, c, row.(status := Duplicate, flag := FlagExact, existing := Some(existing))) else s1
      case Possible(existing) =>
        if env.markWrite then SetRow(s1, c, row.(flag := FlagPossible, existing := Some(existing))) else s1
      case New => MakeCompany(s1, c, env)
  }

  /** The try block, and what its catch writes. */
  function MakeCompany(s: Desk, c: nat, env: CreateEnv): Desk
    requires c < |s.candidates|
  {
    var row := s.candidates[c];
    if !env.effect then if env.catchWrite then SetRow(s, c, row.(status := Failed)) else s
    else if !env.response then
      var s1 := Log(s, Made(c, env.id, false, false));
      if env.catchWrite then SetRow(s1, c, row.(status := Failed)) else s1
    else
      var goesOn := env.checkpointWrite && env.checkpointAck;
      var written := goesOn && env.rowWrite;
      var fine := written && env.rowAck && env.audit;
      var caught := !fine && env.catchWrite;
      var s1 := Log(s, Made(c, env.id, env.checkpointWrite, written || caught));
      var s2 := if env.checkpointWrite then s1.(checkpoints := s1.checkpoints[c := env.id]) else s1;
      if caught then SetRow(s2, c, row.(status := Failed, created := Some(env.id)))
      else if written then SetRow(s2, c, row.(status := Created, created := Some(env.id)))
      else s2
  }

  function Step(s: Desk, call: Call): Desk
  {
    match call
    case Propose(domain, name, companies) => ProposeCandidate(s, domain, name, companies)
    case Approve(c) => ApproveCandidate(s, c)
    case Reject(c) => RejectCandidate(s, c)
    case Create(c, env) => CreateApproved(s, c, env)
  }

  function Run(calls: seq<Call>): Desk
  {
    if calls == [] then Desk([], map[], []) else Step(Run(calls[..|calls| - 1]), calls[|calls| - 1])
  }

  ghost predicate Reachable(s: Desk)
  {
    exists calls :: s == Run(calls)
  }

  // ---------------------------------------------------------------- invariant

  ghost predicate ApprovedBefore(trace: seq<Event>, i: nat, c: nat)
  {
    exists j | 0 <= j < i && j < |trace| :: trace[j] == Approval(c)
  }

  /** A company is made right after its own call's lookup answered NEW, for a candidate approved before. */
  ghost predicate MadeRightly(trace: seq<Event>, i: nat)
    requires i < |trace|
  {
    trace[i].Made? ==>
      && 0 < i && trace[i - 1] == Looked(trace[i].c, New)
      && ApprovedBefore(trace, i, trace[i].c)
  }

  ghost predicate AllMadeRightly(s: Desk)
  {
    forall i | 0 <= i < |s.trace| :: MadeRightly(s.trace, i)
  }

  /** Statuses past approval were approved. */
  ghost predicate StatusEarned(s: Desk, c: nat)
    requires c < |s.candidates|
  {
    s.candidates[c].status in {Approved, Created, Failed} ==> ApprovedBefore(s.trace, |s.trace|, c)
  }

  ghost predicate Bounded(s: Desk)
  {
    && (forall c | c in s.checkpoints :: c < |s.candidates|)
    && (forall i | 0 <= i < |s.trace| :: s.trace[i].c < |s.candidates|)
  }

  ghost predicate RealIds(trace: seq<Event>)
  {
    forall i | 0 <= i < |trace| && trace[i].Made? :: trace[i].id != ""
  }

  /** What reached the checkpoint or the row is still there. */
  predicate StillKnown(s: Desk, i: nat)
    requires Bounded(s) && i < |s.trace|
  {
    var e := s.trace[i];
    e.Made? ==>
      && (e.checkpointed ==> e.c in s.checkpoints && s.checkpoints[e.c] == e.id)
      && (e.rowed ==> s.candidates[e.c].created == Some(e.id))
  }

  ghost predicate MadeWith(trace: seq<Event>, c: nat, id: string)
  {
    exists i | 0 <= i < |trace| :: trace[i].Made? && trace[i].c == c && trace[i].id == id
  }

  /** Both records name companies made for the candidate, and the same one. */
  ghost predicate Agree(s: Desk, c: nat)
    requires c < |s.candidates|
  {
    var row := s.candidates[c];
    && (c in s.checkpoints ==> MadeWith(s.trace, c, s.checkpoints[c]))
    && (row.created.Some? ==> MadeWith(s.trace, c, row.created.value))
    && (c in s.checkpoints && row.created.Some? ==> row.created == Some(s.checkpoints[c]))
    && (row.status == Created ==> row.created.Some?)
  }

  /** A company made again means the first one left no trace. */
  predicate OnlyIfLost(trace: seq<Event>, i: nat, j: nat)
    requires i < j < |trace|
  {
    trace[i].Made? && trace[j].Made? && trace[i].c == trace[j].c ==> !trace[i].checkpointed && !trace[i].rowed
  }

  ghost predicate Remembered(s: Desk)
    requires Bounded(s)
  {
    && (forall i | 0 <= i < |s.trace| :: StillKnown(s, i))
    && (forall c | 0 <= c < |s.candidates| :: Agree(s, c))
    && (forall i, j | 0 <= i < j < |s.trace| :: OnlyIfLost(s.trace, i, j))
  }

  ghost predicate Earned(s: Desk)
  {
    forall c | 0 <= c < |s.candidates| :: StatusEarned(s, c)
  }

  ghost predicate Inv(s: Desk)
  {
    Bounded(s) && AllMadeRightly(s) && Earned(s) && (RealIds(s.trace) ==> Remembered(s))
  }

  // --------------------------------------------------- steps that make nothing

  /** A row may change everything but what it remembers; the log may gain an approval or a lookup. */
  ghost predicate Quiet(a: Desk, b: Desk)
  {
    && b.checkpoints == a.checkpoints
    && |a.candidates| <= |b.candidates|
    && (forall c | 0 <= c < |a.candidates| :: b.candidates[c].created == a.candidates[c].created)
    && (forall c | 0 <= c < |a.candidates| && b.candidates[c].status == Created ::
          a.candidates[c].status == Created || a.candidates[c].created.Some?)
    && (forall c | |a.candidates| <= c < |b.candidates| ::
          b.candidates[c].created.None? && b.candidates[c].status in {Proposed, Duplicate})
    && a.trace <= b.trace && |b.trace| <= |a.trace| + 1
    && (forall i | |a.trace| <= i < |b.trace| :: !b.trace[i].Made? && b.trace[i].c < |b.candidates|)
  }

  lemma ApprovedStays(a: seq<Event>, b: seq<Event>, c: nat)
    requires a <= b && ApprovedBefore(a, |a|, c)
    ensures ApprovedBefore(b, |b|, c)
  {
    var j :| 0 <= j < |a| && a[j] == Approval(c);
    assert b[j] == Approval(c);
  }

  lemma MadeRightlyStays(a: seq<Event>, b: seq<Event>, i: nat)
    requires a <= b && i < |a| && MadeRightly(a, i)
    ensures MadeRightly(b, i)
  {
    if a[i].Made? {
      var j :| 0 <= j < i && a[j] == Approval(a[i].c);
      assert b[j] == Approval(b[i].c);
    }
  }

  lemma QuietRemembers(a: Desk, b: Desk)
    requires Bounded(a) && Bounded(b) && Remembered(a) && Quiet(a, b)
    ensures Remembered(b)
  {
    forall i | 0 <= i < |b.trace| ensures StillKnown(b, i) {
      if i < |a.trace| { assert StillKnown(a, i); }
    }
    forall c | 0 <= c < |b.candidates| ensures Agree(b, c) {
      if c < |a.candidates| {
        assert Agree(a, c);
        MadeWithStays(a.trace, b.trace, c);
      }
    }
    forall i, j | 0 <= i < j < |b.trace| ensures OnlyIfLost(b.trace, i, j) {
      if j < |a.trace| { assert OnlyIfLost(a.trace, i, j); }
    }
  }

  lemma MadeWithStays(a: seq<Event>, b: seq<Event>, c: nat)
    requires a <= b
    ensures forall id | MadeWith(a, c, id) :: MadeWith(b, c, id)
  {
    forall id | MadeWith(a, c, id) ensures MadeWith(b, c, id) {
      var i :| 0 <= i < |a| && a[i].Made? && a[i].c == c && a[i].id == id;
      assert b[i] == a[i];
    }
  }

  lemma QuietKeeps(a: Desk, b: Desk)
    requires Inv(a) && Quiet(a, b) && Earned(b)
    ensures Inv(b)
  {
    forall i | 0 <= i < |b.trace| ensures b.trace[i].c < |b.candidates| && MadeRightly(b.trace, i) {
      if i < |a.trace| {
        assert b.trace[i] == a.trace[i];
        assert MadeRightly(a.trace, i);
        MadeRightlyStays(a.trace, b.trace, i);
      }
    }
    if RealIds(b.trace) {
      assert forall i | 0 <= i < |a.trace| :: b.trace[i] == a.trace[i];
      QuietRemembers(a, b);
    }
  }

  /** Statuses stay earned when a row only takes a status it may take. */
  lemma EarnedStays(a: Desk, b: Desk)
    requires Earned(a) && a.trace <= b.trace && |a.candidates| <= |b.candidates|
    requires forall c | 0 <= c < |b.candidates| ::
      || (c < |a.candidates| && b.candidates[c].status == a.candidates[c].status)
      || b.candidates[c].status in {Proposed, Duplicate, Rejected}
      || ApprovedBefore(b.trace, |b.trace|, c)
    ensures Earned(b)
  {
    forall c | 0 <= c < |b.candidates| ensures StatusEarned(b, c) {
      if c < |a.candidates| && b.candidates[c].status == a.candidates[c].status {
        assert StatusEarned(a, c);
        if a.candidates[c].status in {Approved, Created, Failed} { ApprovedStays(a.trace, b.trace, c); }
      }
    }
  }

  lemma ProposeKeeps(s: Desk, domain: string, name: string, companies: seq<Company>)
    requires Inv(s)
    ensures Inv(ProposeCandidate(s, domain, name, companies))
  {
    var s1 := ProposeCandidate(s, domain, name, companies);
    EarnedStays(s, s1);
    QuietKeeps(s, s1);
  }

  lemma ApproveKeeps(s: Desk, c: nat)
    requires Inv(s)
    ensures Inv(ApproveCandidate(s, c))
  {
    var s1 := ApproveCandidate(s, c);
    if s1 != s { assert s1.trace[|s.trace|] == Approval(c); }
    EarnedStays(s, s1);
    QuietKeeps(s, s1);
  }

  lemma RejectKeeps(s: Desk, c: nat)
    requires Inv(s)
    ensures Inv(RejectCandidate(s, c))
  {
    EarnedStays(s, RejectCandidate(s, c));
    QuietKeeps(s, RejectCandidate(s, c));
  }

  // ------------------------------------------------------- making the company

  /** The row of one earned candidate changes, not what it remembers, and nothing is made. */
  lemma MarkKeeps(s: Desk, c: nat, row: Candidate)
    requires Inv(s) && c < |s.candidates| && ApprovedBefore(s.trace, |s.trace|, c)
    requires row.created == s.candidates[c].created && row.status != Created
    ensures Inv(SetRow(s, c, row))
  {
    EarnedStays(s, SetRow(s, c, row));
    QuietKeeps(s, SetRow(s, c, row));
  }

  lemma RecoverRemembers(s: Desk, c: nat)
    requires Bounded(s) && Remembered(s) && RealIds(s.trace) && c < |s.candidates| && Known(s, c).Some?
    ensures var s1 := SetRow(s, c, s.candidates[c].(status := Created, created := Known(s, c)));
      Bounded(s1) && Remembered(s1)
  {
    var s1 := SetRow(s, c, s.candidates[c].(status := Created, created := Known(s, c)));
    assert Agree(s, c);
    assert s.candidates[c].created.Some? ==> Known(s, c) == s.candidates[c].created;
    forall i | 0 <= i < |s1.trace| ensures StillKnown(s1, i) { assert StillKnown(s, i); }
    forall d | 0 <= d < |s1.candidates| ensures Agree(s1, d) { assert Agree(s, d); }
    forall i, j | 0 <= i < j < |s1.trace| ensures OnlyIfLost(s1.trace, i, j) { assert OnlyIfLost(s.trace, i, j); }
  }

  lemma RecoverKeeps(s: Desk, c: nat)
    requires Inv(s) && c < |s.candidates| && Known(s, c).Some? && ApprovedBefore(s.trace, |s.trace|, c)
    ensures Inv(SetRow(s, c, s.candidates[c].(status := Created, created := Known(s, c))))
  {
    EarnedStays(s, SetRow(s, c, s.candidates[c].(status := Created, created := Known(s, c))));
    if RealIds(s.trace) { RecoverRemembers(s, c); }
  }

  lemma LookedKeeps(s: Desk, c: nat, m: Match)
    requires Inv(s) && c < |s.candidates|
    ensures Inv(Log(s, Looked(c, m)))
  {
    EarnedStays(s, Log(s, Looked(c, m)));
    QuietKeeps(s, Log(s, Looked(c, m)));
  }

  /** The state after a company was made: at most the two records of that candidate changed. */
  ghost predicate Makes(a: Desk, b: Desk, c: nat, e: Event)
    requires c < |a.candidates|
  {
    && e.Made? && e.c == c
    && b.trace == a.trace + [e]
    && |b.candidates| == |a.candidates|
    && (forall d | 0 <= d < |a.candidates| && d != c :: b.candidates[d] == a.candidates[d])
    && b.candidates[c].status in {Approved, Created, Failed}
    && (b.candidates[c].status == Created ==> e.rowed || a.candidates[c].status == Created)
    && b.candidates[c].created == (if e.rowed then Some(e.id) else a.candidates[c].created)
    && b.checkpoints == (if e.checkpointed then a.checkpoints[c := e.id] else a.checkpoints)
  }

  lemma MakingIsRight(a: Desk, b: Desk, c: nat, e: Event)
    requires Inv(a) && c < |a.candidates| && Makes(a, b, c, e)
    requires a.trace != [] && a.trace[|a.trace| - 1] == Looked(c, New) && ApprovedBefore(a.trace, |a.trace|, c)
    ensures Bounded(b) && AllMadeRightly(b) && Earned(b)
  {
    forall i | 0 <= i < |b.trace| ensures MadeRightly(b.trace, i) {
      if i < |a.trace| {
        assert MadeRightly(a.trace, i);
        MadeRightlyStays(a.trace, b.trace, i);
      } else {
        var j :| 0 <= j < |a.trace| && a.trace[j] == Approval(c);
        assert b.trace[j] == Approval(c);
      }
    }
    ApprovedStays(a.trace, b.trace, c);
    EarnedStays(a, b);
  }

  lemma MakingRemembers(a: Desk, b: Desk, c: nat, e: Event)
    requires Bounded(a) && Bounded(b) && Remembered(a) && c < |a.candidates| && Makes(a, b, c, e)
    requires c !in a.checkpoints && a.candidates[c].created.None?
    ensures Remembered(b)
  {
    forall i | 0 <= i < |b.trace| ensures StillKnown(b, i) {
      if i < |a.trace| { assert StillKnown(a, i); }
    }
    forall d | 0 <= d < |b.candidates| ensures Agree(b, d) {
      assert Agree(a, d);
      MadeWithStays(a.trace, b.trace, d);
      assert b.trace[|a.trace|] == e;
    }
    forall i, j | 0 <= i < j < |b.trace| ensures OnlyIfLost(b.trace, i, j) {
      assert StillKnown(a, i);
      if j < |a.trace| { assert OnlyIfLost(a.trace, i, j); }
    }
  }

  lemma MakingKeeps(a: Desk, b: Desk, c: nat, e: Event)
    requires Inv(a) && c < |a.candidates| && Makes(a, b, c, e) && Known(a, c).None?
    requires a.trace != [] && a.trace[|a.trace| - 1] == Looked(c, New) && ApprovedBefore(a.trace, |a.trace|, c)
    ensures Inv(b)
  {
    MakingIsRight(a, b, c, e);
    if RealIds(b.trace) {
      assert forall i | 0 <= i < |a.trace| :: b.trace[i] == a.trace[i];
      assert Agree(a, c);
      MakingRemembers(a, b, c, e);
    }
  }

  lemma MakeCompanyKeeps(s: Desk, c: nat, env: CreateEnv)
    requires Inv(s) && c < |s.candidates| && Known(s, c).None?
    requires s.candidates[c].status in {Approved, Failed} && ApprovedBefore(s.trace, |s.trace|, c)
    requires s.trace != [] && s.trace[|s.trace| - 1] == Looked(c, New)
    ensures Inv(MakeCompany(s, c, env))
  {
    var s1 := MakeCompany(s, c, env);
    if !env.effect {
      if env.catchWrite { MarkKeeps(s, c, s.candidates[c].(status := Failed)); }
    } else {
      MakingKeeps(s, s1, c, s1.trace[|s.trace|]);
    }
  }

  lemma CreateKeeps(s: Desk, c: nat, env: CreateEnv)
    requires Inv(s)
    ensures Inv(CreateApproved(s, c, env))
  {
    if c < |s.candidates| && s.candidates[c].status in {Approved, Failed} {
      assert StatusEarned(s, c);
      var row := s.candidates[c];
      if Known(s, c).Some? {
        RecoverKeeps(s, c);
      } else if Lookups(row, env).None? {
        MarkKeeps(s, c, row.(status := Failed));
      } else {
        var m := Dedupe(row.domain, row.name, Lookups(row, env).value);
        var s1 := Log(s, Looked(c, m));
        LookedKeeps(s, c, m);
        ApprovedStays(s.trace, s1.trace, c);
        match m
        case Exact(existing) => MarkKeeps(s1, c, row.(status := Duplicate, flag := FlagExact, existing := Some(existing)));
        case Possible(existing) => MarkKeeps(s1, c, row.(flag := FlagPossible, existing := Some(existing)));
        case New => MakeCompanyKeeps(s1, c, env);
      }
    }
  }
}
