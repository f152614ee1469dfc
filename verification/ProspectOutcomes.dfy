/** What a candidate's decisions mean for the rest of its life: on statuses, flags and what the CRM was made to do. */
module ProspectOutcomes {
  import opened Wrappers
  import opened CompanyDedupe
  import opened ProspectCreation
  import opened ProspectTheorems

  /** The log grew by events none of which is a company made for c. */
  ghost predicate NoneMade(a: seq<Event>, b: seq<Event>, c: nat)
  {
    a <= b && forall i | |a| <= i < |b| :: !(b[i].Made? && b[i].c == c)
  }

  lemma NoneMadeThen(x: seq<Event>, y: seq<Event>, z: seq<Event>, c: nat)
    requires NoneMade(x, y, c) && NoneMade(y, z, c)
    ensures NoneMade(x, z, c)
  {
    forall i | |x| <= i < |z| ensures !(z[i].Made? && z[i].c == c) {
      if i < |y| { assert z[i] == y[i]; }
    }
  }

  /** Only a create call of an approved or failed candidate makes a company for it. */
  lemma OnlyItsCreateMakes(s: Desk, call: Call, c: nat)
    requires c < |s.candidates| && s.candidates[c].status !in {Approved, Failed}
    ensures NoneMade(s.trace, Step(s, call).trace, c)
  {
    hide Dedupe, Lookups;
  }

  // -------------------------------------------------------------------- reject

  /** Any candidate but a created or rejected one becomes REJECTED by it, and nothing else moves. */
  lemma RejectedExactlyWhen(s: Desk, c: nat)
    requires c < |s.candidates|
    ensures s.candidates[c].status !in {Created, Rejected} ==>
      Step(s, Reject(c)) == s.(candidates := s.candidates[c := s.candidates[c].(status := Rejected)])
    ensures s.candidates[c].status in {Created, Rejected} ==> Step(s, Reject(c)) == s
  {}

  /** A rejected candidate stays REJECTED, and no company is ever made for it, over every later run. */
  lemma {:induction false} RejectedForGood(s: Desk, c: nat, calls: seq<Call>)
    requires c < |s.candidates| && s.candidates[c].status !in {Created, Rejected}
    ensures var s' := RunFrom(Step(s, Reject(c)), calls);
      && c < |s'.candidates|
      && s'.candidates[c] == s.candidates[c].(status := Rejected)
      && NoneMade(s.trace, s'.trace, c)
  {
    var s1 := Step(s, Reject(c));
    RejectedExactlyWhen(s, c);
    FinalAbsorbs(s1, calls, c);
    if calls == [] {
    } else {
      var n := |calls| - 1;
      var s2 := RunFrom(s1, calls[..n]);
      RejectedForGood(s, c, calls[..n]);
      OnlyItsCreateMakes(s2, calls[n], c);
      hide Step;
      NoneMadeThen(s.trace, s2.trace, RunFrom(s1, calls).trace, c);
    }
  }

  // ------------------------------------------------------------------- approve

  /** Approving goes through exactly for a proposed or failed candidate that matched nothing. */
  lemma ApprovedExactlyWhen(s: Desk, c: nat)
    requires c < |s.candidates|
    ensures s.candidates[c].status in {Proposed, Failed} && s.candidates[c].flag == FlagNew ==>
      Step(s, Approve(c))
        == s.(candidates := s.candidates[c := s.candidates[c].(status := Approved)], trace := s.trace + [Approval(c)])
    ensures !(s.candidates[c].status in {Proposed, Failed} && s.candidates[c].flag == FlagNew) ==> Step(s, Approve(c)) == s
  {}

  /** A new candidate: a shared domain, or without one a shared name, makes it a duplicate; a shared name beside a domain of its own a possible match. */
  lemma ProposedAs(s: Desk, domain: string, name: string, companies: seq<Company>)
    ensures var s1 := Step(s, Propose(domain, name, companies)); var c := |s.candidates|;
      && |s1.candidates| == c + 1 && s1.candidates[..c] == s.candidates
      && s1.candidates[c].created.None? && s1.checkpoints == s.checkpoints && s1.trace == s.trace
      && s1.candidates[c].status in {Proposed, Duplicate}
      && (s1.candidates[c].flag == FlagNew <==> !SharesDomain(companies, domain) && !SharesName(companies, name))
      && (s1.candidates[c].flag == FlagExact <==> SharesDomain(companies, domain) || (domain == "" && SharesName(companies, name)))
      && (s1.candidates[c].status == Duplicate <==> s1.candidates[c].flag == FlagExact)
      && (!SharesDomain(companies, domain) && !SharesName(companies, name) ==> s1.candidates[c].status == Proposed)
      && (s1.candidates[c].flag == FlagNew ==> s1.candidates[c].existing.None?)
      && (s1.candidates[c].flag != FlagNew ==> exists company <- companies ::
            s1.candidates[c].existing == Some(company.id) && (company.domain == domain || company.name == name))
  {}

  /** Flagged as a match and not past approval. */
  predicate Flagged(s: Desk, c: nat)
  {
    c < |s.candidates| && s.candidates[c].flag != FlagNew && s.candidates[c].status in {Proposed, Duplicate, Rejected}
  }

  lemma FlaggedStays(s: Desk, call: Call, c: nat)
    requires Flagged(s, c)
    ensures Flagged(Step(s, call), c)
  {
    hide Dedupe, Lookups;
  }

  /** A candidate proposed as a match, certain or possible, is never approved and no company is made for it, over every run. */
  lemma {:induction false} MatchIsNeverApproved(s: Desk, domain: string, name: string, companies: seq<Company>, calls: seq<Call>)
    requires SharesDomain(companies, domain) || SharesName(companies, name)
    ensures var c := |s.candidates|; var s' := RunFrom(Step(s, Propose(domain, name, companies)), calls);
      Flagged(s', c) && NoneMade(s.trace, s'.trace, c)
  {
    var c, s1 := |s.candidates|, Step(s, Propose(domain, name, companies));
    ProposedAs(s, domain, name, companies);
    if calls == [] {
    } else {
      var n := |calls| - 1;
      var s2 := RunFrom(s1, calls[..n]);
      MatchIsNeverApproved(s, domain, name, companies, calls[..n]);
      FlaggedStays(s2, calls[n], c);
      OnlyItsCreateMakes(s2, calls[n], c);
      hide Step;
      NoneMadeThen(s.trace, s2.trace, RunFrom(s1, calls).trace, c);
    }
  }

  // ------------------------------------------------------------------- look-up

  /** A lookup counts as answered only if every call it makes was: by domain where there is one, and by name. */
  lemma AnsweredExactlyWhen(row: Candidate, env: CreateEnv)
    ensures Lookups(row, env).Some? <==>
      env.lookup.Some? && env.lookup.value.1.Some? && (row.domain != "" ==> env.lookup.value.0.Some?)
  {
    hide Load;
  }

  /** And then it holds exactly the companies those calls named. */
  lemma AnsweredHolds(row: Candidate, env: CreateEnv, id: string)
    requires Lookups(row, env).Some?
    ensures HasCompany(Lookups(row, env).value, id) <==>
      || (row.domain != "" && exists company <- env.lookup.value.0.value :: company.id == id)
      || exists company <- env.lookup.value.1.value :: company.id == id
  {
    var l := Lookup(row.domain, env.lookup.value.0, env.lookup.value.1);
    LoadedExactly([l], id);
    assert l in [l];
    AnsweredExactlyWhen(row, env);
    hide Load;
  }

  // -------------------------------------------------------------------- create

  /** Every write and answer of the create call is good. */
  predicate FaultFree(env: CreateEnv)
  {
    && env.recoverWrite && env.markWrite && env.effect && env.response && env.checkpointWrite && env.checkpointAck
    && env.rowWrite && env.rowAck && env.audit && env.catchWrite
  }

  /** Of an approved candidate without a company, a faultless create call decides by its lookup alone. */
  lemma CreateDecides(s: Desk, c: nat, env: CreateEnv)
    requires c < |s.candidates| && s.candidates[c].status in {Approved, Failed} && Known(s, c).None? && FaultFree(env)
    ensures var row := s.candidates[c]; var s1 := Step(s, Create(c, env)); var found := Lookups(row, env);
      && c < |s1.candidates|
      && (found.None? ==> s1.candidates[c] == row.(status := Failed) && s1.trace == s.trace)
      && (found.Some? && SharesDomain(found.value, row.domain) ==>
            s1.candidates[c].status == Duplicate && s1.candidates[c].flag == FlagExact && NoneMade(s.trace, s1.trace, c))
      && (found.Some? && !SharesDomain(found.value, row.domain) && SharesName(found.value, row.name) ==>
            s1.candidates[c].flag != FlagNew && s1.candidates[c].existing.Some? && NoneMade(s.trace, s1.trace, c))
      && (found.Some? && !SharesDomain(found.value, row.domain) && !SharesName(found.value, row.name) ==>
            && s1.candidates[c] == row.(status := Created, created := Some(env.id))
            && c in s1.checkpoints && s1.checkpoints[c] == env.id
            && s1.trace == s.trace + [Looked(c, New), Made(c, env.id, true, true)])
  {
    hide Lookups;
  }

  /** A candidate whose company is known is only marked: whatever the CRM would answer, none is made. */
  lemma KnownIsRecovered(s: Desk, c: nat, env: CreateEnv)
    requires c < |s.candidates| && s.candidates[c].status in {Approved, Failed} && Known(s, c).Some?
    ensures var s1 := Step(s, Create(c, env));
      && s1.trace == s.trace && s1.checkpoints == s.checkpoints && c < |s1.candidates|
      && s1.candidates[c] == if env.recoverWrite then s.candidates[c].(status := Created, created := Known(s, c)) else s.candidates[c]
  {}

  /** A CRM that does not carry the creation out, or whose answer is lost, leaves the candidate FAILED and free to be tried again. */
  lemma FailedCreateIsMarked(s: Desk, c: nat, env: CreateEnv)
    requires c < |s.candidates| && s.candidates[c].status in {Approved, Failed} && Known(s, c).None? && env.catchWrite
    requires Lookups(s.candidates[c], env).Some? && !SharesDomain(Lookups(s.candidates[c], env).value, s.candidates[c].domain)
    requires !SharesName(Lookups(s.candidates[c], env).value, s.candidates[c].name) && (!env.effect || !env.response)
    ensures var s1 := Step(s, Create(c, env));
      && s1.candidates == s.candidates[c := s.candidates[c].(status := Failed)] && s1.checkpoints == s.checkpoints
      && (!env.effect ==> NoneMade(s.trace, s1.trace, c))
      && (env.effect ==> s1.trace == s.trace + [Looked(c, New), Made(c, env.id, false, false)])
  {
    hide Lookups;
  }

  /** From proposal to company: nothing matched, approved, created, in any state and under any id. */
  lemma ProposedApprovedCreated(s: Desk, domain: string, name: string, companies: seq<Company>, env: CreateEnv)
    requires !SharesDomain(companies, domain) && !SharesName(companies, name) && |s.candidates| !in s.checkpoints && FaultFree(env)
    requires var row := Candidate(domain, name, Approved, FlagNew, None, None);
      Lookups(row, env).Some? && !SharesDomain(Lookups(row, env).value, domain) && !SharesName(Lookups(row, env).value, name)
    ensures var c := |s.candidates|;
      var s' := RunFrom(s, [Propose(domain, name, companies), Approve(c), Create(c, env)]);
      && c < |s'.candidates|
      && s'.candidates[c] == Candidate(domain, name, Created, FlagNew, None, Some(env.id))
      && c in s'.checkpoints && s'.checkpoints[c] == env.id
  {
    var c := |s.candidates|;
    var calls := [Propose(domain, name, companies), Approve(c), Create(c, env)];
    var s1 := Step(s, calls[0]);
    var s2 := Step(s1, calls[1]);
    assert calls[..2][..1][..0] == [] && calls[..2][..1] == [calls[0]] && calls[..2] == [calls[0], calls[1]];
    assert RunFrom(s, calls[..2][..1][..0]) == s;
    assert RunFrom(s, calls[..2][..1]) == s1;
    assert RunFrom(s, calls[..2]) == s2;
    assert RunFrom(s, calls) == Step(s2, calls[2]);
    assert s1.candidates[c] == Candidate(domain, name, Proposed, FlagNew, None, None);
    ApprovedExactlyWhen(s1, c);
    hide Step, RunFrom, Lookups;
    CreateDecides(s2, c, env);
  }
}
