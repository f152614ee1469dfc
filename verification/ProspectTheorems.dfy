/** The guarantees of candidate approval and CRM creation over any calls and any faults. */
module ProspectTheorems {
  import opened Wrappers
  import opened CompanyDedupe
  import opened ProspectCreation

  lemma StepKeeps(s: Desk, call: Call)
    requires Inv(s)
    ensures Inv(Step(s, call))
  {
    match call
    case Propose(domain, name, companies) => ProposeKeeps(s, domain, name, companies);
    case Approve(c) => ApproveKeeps(s, c);
    case Reject(c) => RejectKeeps(s, c);
    case Create(c, env) => CreateKeeps(s, c, env);
  }

  lemma {:induction false} RunKeeps(calls: seq<Call>)
    ensures Inv(Run(calls))
  {
    if calls == [] {
    } else {
      RunKeeps(calls[..|calls| - 1]);
      StepKeeps(Run(calls[..|calls| - 1]), calls[|calls| - 1]);
    }
  }

  lemma ReachableInv(s: Desk)
    requires Reachable(s)
    ensures Inv(s)
  {
    var calls :| s == Run(calls);
    RunKeeps(calls);
  }

  /** Every company follows, at once, a lookup of the same call that answered NEW, and an earlier approval of its candidate. */
  lemma CompanyNeedsApprovalAndLookup(s: Desk, i: nat)
    requires Reachable(s) && i < |s.trace| && s.trace[i].Made?
    ensures 0 < i && s.trace[i - 1] == Looked(s.trace[i].c, New)
    ensures exists j | 0 <= j < i :: s.trace[j] == Approval(s.trace[i].c)
  {
    ReachableInv(s);
    assert MadeRightly(s.trace, i);
  }

  /** A second company for a candidate needs a lost response, or the loss of both the checkpoint and the row write. */
  lemma SecondCompanyNeedsLoss(s: Desk, i: nat, j: nat)
    requires Reachable(s) && RealIds(s.trace) && i < j < |s.trace|
    requires s.trace[i].Made? && s.trace[j].Made? && s.trace[i].c == s.trace[j].c
    ensures !s.trace[i].checkpointed && !s.trace[i].rowed
  {
    ReachableInv(s);
    assert OnlyIfLost(s.trace, i, j);
  }

  /** Checkpoint and row never name different companies, and what they name was made for the candidate. */
  lemma RecordsAgree(s: Desk, c: nat)
    requires Reachable(s) && RealIds(s.trace) && c < |s.candidates|
    ensures c in s.checkpoints && s.candidates[c].created.Some? ==> s.candidates[c].created == Some(s.checkpoints[c])
    ensures Known(s, c).Some? ==> MadeWith(s.trace, c, Known(s, c).value)
    ensures s.candidates[c].status == Created ==> s.candidates[c].created.Some? && Known(s, c) == s.candidates[c].created
  {
    ReachableInv(s);
    assert Agree(s, c);
    if s.candidates[c].created.Some? {
      var id := s.candidates[c].created.value;
      var i :| 0 <= i < |s.trace| && s.trace[i].Made? && s.trace[i].c == c && s.trace[i].id == id;
    }
    if c in s.checkpoints {
      var i :| 0 <= i < |s.trace| && s.trace[i].Made? && s.trace[i].c == c && s.trace[i].id == s.checkpoints[c];
    }
  }

  predicate Final(status: Status)
  {
    status == Created || status == Rejected
  }

  /** No call moves a CREATED or REJECTED candidate. */
  lemma FinalStays(s: Desk, call: Call, c: nat)
    requires c < |s.candidates| && Final(s.candidates[c].status)
    ensures c < |Step(s, call).candidates| && Step(s, call).candidates[c] == s.candidates[c]
  {}

  function RunFrom(s: Desk, calls: seq<Call>): Desk
  {
    if calls == [] then s else Step(RunFrom(s, calls[..|calls| - 1]), calls[|calls| - 1])
  }

  /** CREATED and REJECTED absorb: no run changes the candidate any more. */
  lemma {:induction false} FinalAbsorbs(s: Desk, calls: seq<Call>, c: nat)
    requires c < |s.candidates| && Final(s.candidates[c].status)
    ensures c < |RunFrom(s, calls).candidates| && RunFrom(s, calls).candidates[c] == s.candidates[c]
  {
    if calls == [] {
    } else {
      FinalAbsorbs(s, calls[..|calls| - 1], c);
      FinalStays(RunFrom(s, calls[..|calls| - 1]), calls[|calls| - 1], c);
    }
  }

  // --------------------------------------------- exactly when a company is made

  /** No record of the candidate's company, an APPROVED or FAILED row, all lookups answered and none a match. */
  predicate WouldMake(s: Desk, c: nat, env: CreateEnv)
  {
    && c < |s.candidates|
    && s.candidates[c].status in {Approved, Failed}
    && Known(s, c).None?
    && Lookups(s.candidates[c], env).Some?
    && !SharesDomain(Lookups(s.candidates[c], env).value, s.candidates[c].domain)
    && !SharesName(Lookups(s.candidates[c], env).value, s.candidates[c].name)
  }

  /** One more company in the CRM. */
  predicate OneMore(a: Desk, b: Desk, c: nat)
  {
    |b.trace| > |a.trace| && b.trace[|b.trace| - 1].Made? && b.trace[|b.trace| - 1].c == c
  }

  /** A create call makes a company exactly when it would and the CRM carries it out; other calls never do. */
  lemma MakesExactlyWhen(s: Desk, c: nat, env: CreateEnv)
    ensures OneMore(s, Step(s, Create(c, env)), c) <==> WouldMake(s, c, env) && env.effect
  {}

  lemma OthersMakeNothing(s: Desk, call: Call, c: nat)
    requires !call.Create? || call.c != c
    ensures !OneMore(s, Step(s, call), c)
  {}

  /** Checkpoint and row write went through, and no catch block wrote over the row. */
  predicate EndsCreated(env: CreateEnv)
  {
    env.checkpointWrite && env.checkpointAck && env.rowWrite && ((env.rowAck && env.audit) || !env.catchWrite)
  }

  /** The CRM carried the company out, and what the caller of the create call can know of it afterwards. */
  predicate Forgets(env: CreateEnv)
  {
    || !env.response
    || (!env.checkpointWrite && !env.catchWrite)
    || (env.id == "" && !EndsCreated(env))
  }

  /** A later lookup that answers and finds no match, with a CRM that carries the creation out. */
  predicate TriesAgain(row: Candidate, again: CreateEnv)
  {
    && Lookups(row, again).Some? && again.effect
    && !SharesDomain(Lookups(row, again).value, row.domain)
    && !SharesName(Lookups(row, again).value, row.name)
  }

  /**
   After a company was made, the next unmatched create call makes a second one exactly when
   the response was lost, or checkpoint and row were both lost, or the id was empty and the row
   did not end CREATED.
  */
  lemma SecondCompanyExactlyWhen(s: Desk, c: nat, env: CreateEnv, again: CreateEnv)
    requires WouldMake(s, c, env) && env.effect && TriesAgain(s.candidates[c], again)
    ensures var s1 := Step(s, Create(c, env));
      OneMore(s, s1, c) && (OneMore(s1, Step(s1, Create(c, again)), c) <==> Forgets(env))
  {
    var s1 := Step(s, Create(c, env));
    MakesExactlyWhen(s, c, env);
    assert s1 == MakeCompany(Log(s, Looked(c, New)), c, env);
    AfterMaking(Log(s, Looked(c, New)), c, env);
    MakesExactlyWhen(s1, c, again);
    hide MakeCompany, OneMore, Forgets, Step;
  }

  lemma AfterMaking(s: Desk, c: nat, env: CreateEnv)
    requires c < |s.candidates| && s.candidates[c].status in {Approved, Failed} && Known(s, c).None? && env.effect
    ensures var s1 := MakeCompany(s, c, env);
      && c < |s1.candidates|
      && s1.candidates[c].domain == s.candidates[c].domain && s1.candidates[c].name == s.candidates[c].name
      && (s1.candidates[c].status in {Approved, Failed} && Known(s1, c).None? <==> Forgets(env))
  {}

  /** Otherwise it recovers: whatever the CRM would answer, no further company is made. */
  lemma StoredIsRecovered(s: Desk, c: nat, env: CreateEnv, again: CreateEnv)
    requires WouldMake(s, c, env) && env.effect && env.response && env.id != ""
    requires env.checkpointWrite || env.catchWrite
    ensures var s1 := Step(s, Create(c, env));
      Known(s1, c) == Some(env.id) && !OneMore(s1, Step(s1, Create(c, again)), c)
  {
    MakesExactlyWhen(Step(s, Create(c, env)), c, again);
  }
}
