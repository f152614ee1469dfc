/** The candidate rows and checkpoints, updated in place by the service's methods. */
module ProspectService {
  import opened Wrappers
  import opened CompanyDedupe
  import opened ProspectCreation

  class ProspectDiscoveryService {
    var candidates: seq<Candidate>
    var checkpoints: map<nat, string>
    ghost var trace: seq<Event>

    ghost function View(): Desk
      reads this
    {
      Desk(candidates, checkpoints, trace)
    }

    constructor ()
      ensures View() == Run([])
    {
      candidates, checkpoints, trace := [], map[], [];
    }

    method ProposeCandidate(domain: string, name: string, companies: seq<Company>)
      modifies this
      ensures View() == Step(old(View()), Propose(domain, name, companies))
    {
      var m := Dedupe(domain, name, companies);
      var status := Proposed;
      if m.Exact? {
        status := Duplicate;
      }
      candidates := candidates + [Candidate(domain, name, status, FlagOf(m), ExistingOf(m), None)];
    }

    method ApproveCandidate(c: nat) returns (ok: bool)
      modifies this
      ensures View() == Step(old(View()), Approve(c))
      ensures ok <==> c < |old(candidates)| && Approvable(old(candidates)[c])
    {
      if c >= |candidates| {
        return false;
      }
      var row := candidates[c];
      if row.status == Duplicate || row.flag == FlagExact || row.flag == FlagPossible {
        return false;
      }
      if row.status != Proposed && row.status != Failed {
        return false;
      }
      candidates := candidates[c := row.(status := Approved)];
      trace := trace + [Approval(c)];
      ok := true;
    }

    method RejectCandidate(c: nat) returns (ok: bool)
      modifies this
      ensures View() == Step(old(View()), Reject(c))
    {
      if c >= |candidates| || candidates[c].status == Created || candidates[c].status == Rejected {
        return false;
      }
      candidates := candidates[c := candidates[c].(status := Rejected)];
      ok := true;
    }

    method CreateApprovedCandidate(c: nat, env: CreateEnv) returns (ok: bool)
      modifies this
      ensures View() == Step(old(View()), Create(c, env))
      ensures ok ==> c < |candidates| && candidates[c].status == Created
    {
      if c >= |candidates| || (candidates[c].status != Approved && candidates[c].status != Failed) {
        return false;
      }
      var row := candidates[c];
      var known: Option<string> := None;
      if c in checkpoints && checkpoints[c] != "" {
        known := Some(checkpoints[c]);
      } else if row.created.Some? && row.created.value != "" {
        known := row.created;
      }
      if known.Some? {
        if env.recoverWrite {
          candidates := candidates[c := row.(status := Created, created := known)];
        }
        return env.recoverWrite;
      }
      ok := LookUpThenCreate(c, env);
    }

    /** Fail-closed: a lookup that throws ends the call before anything is created. */
    method LookUpThenCreate(c: nat, env: CreateEnv) returns (ok: bool)
      requires c < |candidates| && candidates[c].status in {Approved, Failed}
      modifies this
      ensures View() == LookupAndMake(old(View()), c, env)
      ensures ok ==> c < |candidates| && candidates[c].status == Created
    {
      var row := candidates[c];
      ok := false;
      var loaded: Option<seq<Company>> := None;
      if env.lookup.Some? {
        var lookup := Lookup(row.domain, env.lookup.value.0, env.lookup.value.1);
        assert Throws(lookup) ==> exists l <- [lookup] :: Throws(l) by {
          assert lookup in [lookup];
        }
        loaded := LoadCrmCompanies([lookup], true);
      }
      if loaded.None? {
        if env.markWrite {
          candidates := candidates[c := row.(status := Failed)];
        }
        return;
      }
      var m := Dedupe(row.domain, row.name, loaded.value);
      trace := trace + [Looked(c, m)];
      if m.Exact? {
        if env.markWrite {
          candidates := candidates[c := row.(status := Duplicate, flag := FlagExact, existing := Some(m.existing))];
        }
      } else if m.Possible? {
        if env.markWrite {
          candidates := candidates[c := row.(flag := FlagPossible, existing := Some(m.existing))];
        }
      } else {
        ok := CreateInCrm(c, env);
      }
    }

    /** The CRM call, the two records, and the catch block that keeps a known id. */
    method CreateInCrm(c: nat, env: CreateEnv) returns (ok: bool)
      requires c < |candidates| && candidates[c].status in {Approved, Failed}
      modifies this
      ensures View() == MakeCompany(old(View()), c, env)
      ensures ok ==> candidates[c].status == Created
    {
      var row := candidates[c];
      var companyId: Option<string> := None;
      ok := false;
      ghost var before := trace;
      if env.effect {
        trace := before + [Made(c, env.id, false, false)];
        if env.response {
          companyId := Some(env.id);
          if env.checkpointWrite {
            checkpoints := checkpoints[c := env.id];
          }
          var rowed := env.checkpointWrite && env.checkpointAck && env.rowWrite;
          if rowed {
            candidates := candidates[c := row.(status := Created, created := companyId)];
          }
          ok := rowed && env.rowAck && env.audit;
          trace := before + [Made(c, env.id, env.checkpointWrite, rowed || (!ok && env.catchWrite))];
        }
      }
      if !ok && env.catchWrite {
        candidates := candidates[c := row.(status := Failed, created := if companyId.Some? then companyId else row.created)];
      }
    }
  }
}
