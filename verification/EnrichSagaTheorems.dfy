/** The guarantees of the enrich-and-score saga over any attempts of any jobs. */
module EnrichSagaTheorems {
  import opened Wrappers
  import opened EnrichSaga
  import opened EnrichSagaProofs

  // ----------------------------------------------------------- conservation

  /** Effects of a CRM write = effects whose checkpoint never committed, plus one once it is completed. */
  lemma EffectsConserved(s: Saga, key: Key)
    requires Reachable(s)
    ensures Count(s.ledger, key) == Uncommitted(s.ledger, key) + (if key in s.checkpoints then 1 else 0)
    ensures Uncommitted(s.ledger, key) == 0 ==> Count(s.ledger, key) <= 1
  {
    ReachableInv(s);
  }

  /** The completed checkpoints of a log are a prefix of update, note, link, opportunity. */
  lemma CompletedFormPrefix(s: Saga, t: string, l: string)
    requires Reachable(s)
    ensures Done(s, t, l, CreateOpportunity) ==> Done(s, t, l, LinkNote)
    ensures Done(s, t, l, LinkNote) ==> Done(s, t, l, CreateNote)
    ensures Done(s, t, l, CreateNote) ==> Done(s, t, l, UpdatePerson)
  {
    ReachableInv(s);
    assert PrefixOf(s, t, l);
  }

  lemma {:induction false} CommittedEffect(ledger: seq<Effect>, key: Key)
    requires Count(ledger, key) > Uncommitted(ledger, key)
    ensures exists e <- ledger :: e.key == key && e.committed
  {
    var last := ledger[|ledger| - 1];
    if last.key != key || !last.committed {
      CommittedEffect(ledger[..|ledger| - 1], key);
      var e :| e in ledger[..|ledger| - 1] && e.key == key && e.committed;
      assert e in ledger;
    }
  }

  /** A completed note or opportunity checkpoint stores the id the CRM gave in the one committed effect. */
  lemma StoredIdIsTheCrms(s: Saga, key: Key)
    requires Reachable(s) && key in s.checkpoints && key.action in {CreateNote, CreateOpportunity}
    ensures exists e <- s.ledger :: e.key == key && e.committed && s.checkpoints[key].externalId == Some(e.id)
  {
    ReachableInv(s);
    CommittedEffect(s.ledger, key);
  }

  /** Every link the CRM carried out targets the note of the log's checkpoint. */
  lemma LinkedNoteIsCheckpointed(s: Saga, e: Effect)
    requires Reachable(s) && e in s.ledger && e.key.action == LinkNote
    ensures var note := Key(e.key.tenantId, e.key.logId, CreateNote);
      note in s.checkpoints && e.target.Some? && s.checkpoints[note].externalId == e.target
  {
    ReachableInv(s);
    assert LinksCheckpointedNote(s, e);
  }

  /**
   The completed-without-id branch of the note step fires exactly when the CRM had answered
   with an empty note id; a missing id cannot occur.
  */
  lemma NoteStepThrowsExactlyWhen(s: Saga, job: Job, fate: Fate)
    requires Reachable(s) && fate.read && KeyOf(job, CreateNote) in s.checkpoints
    ensures EnsureNote(s, job, fate).1.None? <==>
      (exists e <- s.ledger :: e.key == KeyOf(job, CreateNote) && e.committed && e.id == "")
  {
    var key := KeyOf(job, CreateNote);
    ReachableInv(s);
    StoredIdIsTheCrms(s, key);
    var e :| e in s.ledger && e.key == key && e.committed && s.checkpoints[key].externalId == Some(e.id);
  }

  /** Such a log is stuck: no later attempt, however lucky, returns. */
  lemma EmptyNoteIdJams(s: Saga, job: Job, env: Env)
    requires KeyOf(job, CreateNote) in s.checkpoints && s.checkpoints[KeyOf(job, CreateNote)].externalId == Some("")
    ensures !Process(s, job, env).1
  {
    var at := (job.tenantId, job.logId);
    if at in s.logs && env.prepared.Some? {
      var s0 := s.(logs := s.logs[at := Log(Processing, env.attempt)]);
      assert Writes(s0, job, env.prepared.value, env).1.None?;
    }
  }

  // ------------------------------------------------------- scores and success

  /** A score that reports an opportunity is backed by the opportunity's checkpoint and carries its id. */
  lemma ReportedOpportunityExists(s: Saga, row: Score)
    requires Reachable(s) && row in s.history && row.opportunityCreated
    ensures var key := KeyOf(row.job, CreateOpportunity);
      key in s.checkpoints && row.opportunityId.Some? && s.checkpoints[key].externalId == row.opportunityId
      && exists e <- s.ledger :: e.key == key && Some(e.id) == row.opportunityId
  {
    ReachableInv(s);
    assert ScoreBacked(s, row);
    StoredIdIsTheCrms(s, KeyOf(row.job, CreateOpportunity));
  }

  /** A log marked success had its person updated, its note created and the note linked. */
  lemma SuccessMeansWritten(s: Saga, t: string, l: string)
    requires Reachable(s) && (t, l) in s.logs && s.logs[(t, l)].status == Success
    ensures Done(s, t, l, UpdatePerson) && Done(s, t, l, CreateNote) && Done(s, t, l, LinkNote)
  {
    ReachableInv(s);
    assert SuccessBacked(s, (t, l));
    assert PrefixOf(s, t, l);
  }

  function Good(id: string): Fate
  {
    Fate(true, true, true, true, true, id)
  }

  /** The attempt got as far as its score row. */
  predicate Scores(s: Saga, a: Attempt)
  {
    |Process(s, a.job, a.env).0.history| > |s.history|
  }

  /** The attempt saw the tenant's switch on and a score that meets the threshold. */
  predicate SawThreshold(a: Attempt)
  {
    a.env.prepared.Some? && a.env.prepared.value.autoOpportunity && a.env.prepared.value.score >= a.env.prepared.value.threshold
  }

  lemma StepsLeaveRows(s: Saga, job: Job, noteId: string, fate: Fate)
    ensures SameRows(s, EnsureUpdate(s, job, fate).0)
    ensures SameRows(s, EnsureNote(s, job, fate).0)
    ensures SameRows(s, EnsureLink(s, job, noteId, fate).0)
    ensures SameRows(s, EnsureOpportunity(s, job, fate).0)
  {}

  lemma WritesAnswer(s: Saga, job: Job, p: Prepared, env: Env)
    ensures SameRows(s, Writes(s, job, p, env).0)
    ensures Writes(s, job, p, env).1 in {None, Some(WantsOpportunity(p))}
  {
    hide EnsureUpdate, EnsureNote, EnsureLink, EnsureOpportunity;
    StepsLeaveRows(s, job, "", env.update);
    var (s1, updated) := EnsureUpdate(s, job, env.update);
    StepsLeaveRows(s1, job, "", env.note);
    var (s2, noteId) := EnsureNote(s1, job, env.note);
    if noteId.Some? {
      StepsLeaveRows(s2, job, noteId.value, env.link);
      StepsLeaveRows(EnsureLink(s2, job, noteId.value, env.link).0, job, "", env.opportunity);
    }
  }

  /**
   An attempt that writes a score row, whether it fails afterwards or not, reports an
   opportunity exactly when it saw the threshold met, and every returning attempt writes one.
  */
  lemma ReportsExactlyWhen(s: Saga, a: Attempt)
    ensures var s1 := Process(s, a.job, a.env).0;
      if Scores(s, a)
      then |s1.history| == |s.history| + 1 && s.history <= s1.history
           && s1.history[|s.history|].job == a.job
           && (s1.history[|s.history|].opportunityCreated <==> SawThreshold(a))
           && a.env.prepared.Some? && s1.history[|s.history|].score == a.env.prepared.value.score
      else s1.history == s.history
    ensures Process(s, a.job, a.env).1 ==> Scores(s, a)
  {
    hide Writes;
    var at := (a.job.tenantId, a.job.logId);
    if a.env.prepared.Some? && at in s.logs {
      WritesAnswer(s.(logs := s.logs[at := Log(Processing, a.env.attempt)]), a.job, a.env.prepared.value, a.env);
    }
  }

  /** Some score row of the log reports an opportunity. */
  predicate Reported(s: Saga, t: string, l: string)
  {
    exists row <- s.history :: row.job.tenantId == t && row.job.logId == l && row.opportunityCreated
  }

  predicate OfLog(a: Attempt, t: string, l: string)
  {
    a.job.tenantId == t && a.job.logId == l
  }

  /** One more attempt of the log that wrote a score row and saw the threshold met. */
  predicate Reports(s: Saga, a: Attempt, t: string, l: string)
  {
    OfLog(a, t, l) && Scores(s, a) && SawThreshold(a)
  }

  /** Attempt i of the run is such an attempt. */
  predicate ReportsAt(logs: map<(string, string), Log>, attempts: seq<Attempt>, i: nat, t: string, l: string)
  {
    i < |attempts| && Reports(Run(logs, attempts[..i]), attempts[i], t, l)
  }

  /** A log's opportunity is reported exactly when some attempt of it wrote its score row having seen the threshold met. */
  lemma {:induction false} ReportedExactlyWhen(logs: map<(string, string), Log>, attempts: seq<Attempt>, t: string, l: string)
    ensures Reported(Run(logs, attempts), t, l) <==> exists i :: ReportsAt(logs, attempts, i, t, l)
  {
    if attempts == [] {
      assert !Reported(Run(logs, attempts), t, l);
    } else {
      var n := |attempts| - 1;
      ReportedExactlyWhen(logs, attempts[..n], t, l);
      assert Run(logs, attempts) == Process(Run(logs, attempts[..n]), attempts[n].job, attempts[n].env).0;
      hide Process;
      ReportsExactlyWhen(Run(logs, attempts[..n]), attempts[n]);
      ReportedNext(Run(logs, attempts[..n]), Run(logs, attempts), attempts[n], t, l);
      hide Reports, Reported, Run, ReportsAt;
      forall i: nat ensures ReportsAt(logs, attempts, i, t, l)
        <==> ReportsAt(logs, attempts[..n], i, t, l) || (i == n && Reports(Run(logs, attempts[..n]), attempts[n], t, l))
      {
        ReportsAtNext(logs, attempts, i, t, l);
      }
      if Reports(Run(logs, attempts[..n]), attempts[n], t, l) { assert ReportsAt(logs, attempts, n, t, l); }
    }
  }

  lemma ReportsAtNext(logs: map<(string, string), Log>, attempts: seq<Attempt>, i: nat, t: string, l: string)
    requires attempts != []
    ensures var n := |attempts| - 1;
      ReportsAt(logs, attempts, i, t, l)
      == (ReportsAt(logs, attempts[..n], i, t, l) || (i == n && Reports(Run(logs, attempts[..n]), attempts[n], t, l)))
  {
    hide Reports, Run;
    var n := |attempts| - 1;
    if i < n { assert attempts[..n][..i] == attempts[..i]; }
  }

  lemma ReportedNext(s: Saga, s1: Saga, a: Attempt, t: string, l: string)
    requires if Scores(s, a)
      then |s1.history| == |s.history| + 1 && s.history <= s1.history
           && s1.history[|s.history|].job == a.job
           && (s1.history[|s.history|].opportunityCreated <==> SawThreshold(a))
      else s1.history == s.history
    ensures Reported(s1, t, l) <==> Reported(s, t, l) || Reports(s, a, t, l)
  {
    hide Scores, SawThreshold;
    if Scores(s, a) {
      var row := s1.history[|s.history|];
      assert s1.history == s.history + [row];
      assert row in s1.history;
    }
  }

  /**
   A completed opportunity goes unreported exactly when no attempt of its log that reached its
   score row saw the threshold met: whichever attempt created it broke before that row.
  */
  lemma UnreportedExactlyWhen(logs: map<(string, string), Log>, attempts: seq<Attempt>, t: string, l: string)
    requires Done(Run(logs, attempts), t, l, CreateOpportunity)
    ensures !Reported(Run(logs, attempts), t, l)
      <==> forall i | 0 <= i < |attempts| && OfLog(attempts[i], t, l) && Scores(Run(logs, attempts[..i]), attempts[i]) ::
             !SawThreshold(attempts[i])
  {
    ReportedExactlyWhen(logs, attempts, t, l);
    hide Scores, SawThreshold, Reported, Run;
    if i: nat :| ReportsAt(logs, attempts, i, t, l) {
      assert OfLog(attempts[i], t, l) && Scores(Run(logs, attempts[..i]), attempts[i]) && SawThreshold(attempts[i]);
    } else {
      forall i | 0 <= i < |attempts| && OfLog(attempts[i], t, l) && Scores(Run(logs, attempts[..i]), attempts[i])
        ensures !SawThreshold(attempts[i])
      {
        assert !ReportsAt(logs, attempts, i, t, l);
      }
    }
  }

  /**
   The converse fails: the opportunity of an attempt whose bookkeeping broke is not reported by
   a retry that sees a lower score, although its checkpoint is completed.
  */
  lemma OpportunityCanGoUnreported()
    ensures var job := Job("t", "p", "l");
      var high := Env(1, Some(Prepared(true, 50, 80)), Good("1"), Good("2"), Good("3"), Good("4"), HistoryFails, true);
      var low := Env(2, Some(Prepared(true, 50, 20)), Good("1"), Good("2"), Good("3"), Good("4"), LateFine, true);
      var s := Run(map[("t", "l") := Log(Pending, 0)], [Attempt(job, high), Attempt(job, low)]);
      && ("t", "l") in s.logs && s.logs[("t", "l")].status == Success
      && s.history == [Score(job, 20, false, None)]
      && KeyOf(job, CreateOpportunity) in s.checkpoints
  {
    var job := Job("t", "p", "l");
    var logs := map[("t", "l") := Log(Pending, 0)];
    var high := Env(1, Some(Prepared(true, 50, 80)), Good("1"), Good("2"), Good("3"), Good("4"), HistoryFails, true);
    var low := Env(2, Some(Prepared(true, 50, 20)), Good("1"), Good("2"), Good("3"), Good("4"), LateFine, true);
    RunNext(logs, [], Attempt(job, high));
    RunNext(logs, [Attempt(job, high)], Attempt(job, low));
    assert [] + [Attempt(job, high)] == [Attempt(job, high)];
    assert [Attempt(job, high)] + [Attempt(job, low)] == [Attempt(job, high), Attempt(job, low)];
    var s0 := Saga(map[], [], logs, []);
    var s1 := Process(s0, job, high).0;
    CleanWrites(s0.(logs := logs[("t", "l") := Log(Processing, 1)]), job, high.prepared.value, high);
    CleanWrites(s1.(logs := s1.logs[("t", "l") := Log(Processing, 2)]), job, low.prepared.value, low);
    hide Writes;
  }

  lemma RunNext(logs: map<(string, string), Log>, attempts: seq<Attempt>, a: Attempt)
    ensures Run(logs, attempts + [a]) == Process(Run(logs, attempts), a.job, a.env).0
  {
    assert (attempts + [a])[..|attempts|] == attempts;
  }

  // ------------------------------------------------------------------- frame

  /** Everything outside one log is as it was. */
  ghost predicate OthersUntouched(a: Saga, b: Saga, t: string, l: string)
  {
    && (forall key: Key | key.tenantId != t || key.logId != l ::
          (key in b.checkpoints <==> key in a.checkpoints)
          && (key in a.checkpoints ==> b.checkpoints[key] == a.checkpoints[key]))
    && (forall at | at != (t, l) :: (at in b.logs <==> at in a.logs) && (at in a.logs ==> b.logs[at] == a.logs[at]))
    && a.ledger <= b.ledger && a.history <= b.history
    && (forall e <- b.ledger[|a.ledger|..] :: e.key.tenantId == t && e.key.logId == l)
    && (forall row <- b.history[|a.history|..] :: row.job.tenantId == t && row.job.logId == l)
  }

  lemma UntouchedThen(a: Saga, b: Saga, c: Saga, t: string, l: string)
    requires OthersUntouched(a, b, t, l) && OthersUntouched(b, c, t, l)
    ensures OthersUntouched(a, c, t, l)
  {
    assert c.ledger[|a.ledger|..] == b.ledger[|a.ledger|..] + c.ledger[|b.ledger|..];
    assert c.history[|a.history|..] == b.history[|a.history|..] + c.history[|b.history|..];
  }

  lemma PerformTouches(s: Saga, job: Job, action: WriteAction, target: Option<string>, ext: Option<string>, fate: Fate)
    ensures OthersUntouched(s, Perform(s, job, action, target, ext, fate).0, job.tenantId, job.logId)
  {}

  lemma StepsTouch(s: Saga, job: Job, noteId: string, fate: Fate)
    ensures OthersUntouched(s, EnsureUpdate(s, job, fate).0, job.tenantId, job.logId)
    ensures OthersUntouched(s, EnsureNote(s, job, fate).0, job.tenantId, job.logId)
    ensures OthersUntouched(s, EnsureLink(s, job, noteId, fate).0, job.tenantId, job.logId)
    ensures OthersUntouched(s, EnsureOpportunity(s, job, fate).0, job.tenantId, job.logId)
  {
    NothingTouched(s, job.tenantId, job.logId);
    hide OthersUntouched;
    PerformTouches(s, job, UpdatePerson, None, None, fate);
    PerformTouches(s, job, CreateNote, None, Some(fate.id), fate);
    PerformTouches(s, job, LinkNote, Some(noteId), Some(noteId), fate);
    PerformTouches(s, job, CreateOpportunity, None, Some(fate.id), fate);
  }

  lemma NothingTouched(s: Saga, t: string, l: string)
    ensures OthersUntouched(s, s, t, l)
  {}

  lemma WritesTouch(s: Saga, job: Job, p: Prepared, env: Env)
    ensures OthersUntouched(s, Writes(s, job, p, env).0, job.tenantId, job.logId)
  {
    hide OthersUntouched, EnsureUpdate, EnsureNote, EnsureLink, EnsureOpportunity;
    var t, l := job.tenantId, job.logId;
    var (s1, updated) := EnsureUpdate(s, job, env.update);
    StepsTouch(s, job, "", env.update);
    if updated {
      var (s2, noteId) := EnsureNote(s1, job, env.note);
      StepsTouch(s1, job, "", env.note);
      UntouchedThen(s, s1, s2, t, l);
      if noteId.Some? {
        var (s3, linked) := EnsureLink(s2, job, noteId.value, env.link);
        StepsTouch(s2, job, noteId.value, env.link);
        UntouchedThen(s, s2, s3, t, l);
        StepsTouch(s3, job, "", env.opportunity);
        UntouchedThen(s, s3, EnsureOpportunity(s3, job, env.opportunity).0, t, l);
      }
    }
  }

  lemma SetLogTouches(s: Saga, job: Job, row: Log)
    requires (job.tenantId, job.logId) in s.logs
    ensures OthersUntouched(s, s.(logs := s.logs[(job.tenantId, job.logId) := row]), job.tenantId, job.logId)
  {}

  lemma FinishTouches(s: Saga, job: Job, p: Prepared, opportunity: bool, late: Late)
    ensures OthersUntouched(s, Finish(s, job, p, opportunity, late).0, job.tenantId, job.logId)
  {}

  /** An attempt of one job leaves every other log's checkpoints, effects, status and scores alone. */
  lemma AttemptTouchesItsLogOnly(s: Saga, job: Job, env: Env)
    ensures OthersUntouched(s, Process(s, job, env).0, job.tenantId, job.logId)
  {
    var t, l, at := job.tenantId, job.logId, (job.tenantId, job.logId);
    NothingTouched(s, t, l);
    if at in s.logs {
      var s0 := s.(logs := s.logs[at := Log(Processing, env.attempt)]);
      SetLogTouches(s, job, Log(Processing, env.attempt));
      BodyTouches(s0, job, env);
      var s1 := Body(s0, job, env).0;
      UntouchedThen(s, s0, s1, t, l);
      FailedTouches(s1, job);
      UntouchedThen(s, s1, SetLog(s1, job, Failed), t, l);
    }
  }

  lemma FailedTouches(s: Saga, job: Job)
    ensures OthersUntouched(s, SetLog(s, job, Failed), job.tenantId, job.logId)
  {}

  lemma BodyTouches(s: Saga, job: Job, env: Env)
    ensures OthersUntouched(s, Body(s, job, env).0, job.tenantId, job.logId)
  {
    NothingTouched(s, job.tenantId, job.logId);
    hide OthersUntouched, Writes, Finish;
    if env.prepared.Some? {
      var (s1, opportunity) := Writes(s, job, env.prepared.value, env);
      WritesTouch(s, job, env.prepared.value, env);
      if opportunity.Some? {
        FinishTouches(s1, job, env.prepared.value, opportunity.value, env.late);
        UntouchedThen(s, s1, Finish(s1, job, env.prepared.value, opportunity.value, env.late).0, job.tenantId, job.logId);
      }
    }
  }

  // ----------------------------------------------------- a fault-free attempt

  predicate Clean(fate: Fate)
  {
    fate.read && fate.effect && fate.response && fate.checkpoint && fate.ack
  }

  predicate FaultFree(env: Env)
  {
    env.prepared.Some? && Clean(env.update) && Clean(env.note) && Clean(env.link) && Clean(env.opportunity) && env.late == LateFine
  }

  /** The effect a write still owes, if its checkpoint is missing. */
  function Owed(s: Saga, job: Job, action: WriteAction, fate: Fate, target: Option<string>): seq<Effect>
  {
    if KeyOf(job, action) in s.checkpoints then [] else [Effect(KeyOf(job, action), fate.id, target, true)]
  }

  /** The note this attempt links: the checkpointed one if there is one, else the one it creates. */
  function NoteToLink(s: Saga, job: Job, fate: Fate): Option<string>
  {
    if KeyOf(job, CreateNote) in s.checkpoints then s.checkpoints[KeyOf(job, CreateNote)].externalId else Some(fate.id)
  }

  function OwedSuffix(s: Saga, job: Job, p: Prepared, env: Env): seq<Effect>
  {
    Owed(s, job, UpdatePerson, env.update, None)
      + Owed(s, job, CreateNote, env.note, None)
      + Owed(s, job, LinkNote, env.link, NoteToLink(s, job, env.note))
      + (if p.autoOpportunity && p.score >= p.threshold then Owed(s, job, CreateOpportunity, env.opportunity, None) else [])
  }

  /** The step performed what it owed and nothing else. */
  predicate Paid(s: Saga, s1: Saga, key: Key, owed: seq<Effect>)
  {
    && s1.ledger == s.ledger + owed
    && SameRows(s, s1)
    && key in s1.checkpoints
    && s1.checkpoints - {key} == s.checkpoints - {key}
    && (key in s.checkpoints ==> s1.checkpoints == s.checkpoints)
  }

  lemma CleanUpdate(s: Saga, job: Job, fate: Fate)
    requires Clean(fate)
    ensures var (s1, ok) := EnsureUpdate(s, job, fate);
      ok && Paid(s, s1, KeyOf(job, UpdatePerson), Owed(s, job, UpdatePerson, fate, None))
  {}

  lemma CleanNote(s: Saga, job: Job, fate: Fate)
    requires Clean(fate)
    requires KeyOf(job, CreateNote) in s.checkpoints ==> s.checkpoints[KeyOf(job, CreateNote)].externalId !in {None, Some("")}
    ensures var (s1, noteId) := EnsureNote(s, job, fate);
      noteId.Some? && noteId == NoteToLink(s, job, fate)
      && Paid(s, s1, KeyOf(job, CreateNote), Owed(s, job, CreateNote, fate, None))
  {}

  lemma CleanLink(s: Saga, job: Job, noteId: string, fate: Fate)
    requires Clean(fate)
    ensures var (s1, ok) := EnsureLink(s, job, noteId, fate);
      ok && Paid(s, s1, KeyOf(job, LinkNote), Owed(s, job, LinkNote, fate, Some(noteId)))
  {}

  lemma CleanOpportunity(s: Saga, job: Job, fate: Fate)
    requires Clean(fate)
    ensures var (s1, ok) := EnsureOpportunity(s, job, fate);
      ok && Paid(s, s1, KeyOf(job, CreateOpportunity), Owed(s, job, CreateOpportunity, fate, None))
  {}

  predicate AllDone(s: Saga, job: Job, p: Prepared)
  {
    && KeyOf(job, UpdatePerson) in s.checkpoints
    && KeyOf(job, CreateNote) in s.checkpoints
    && KeyOf(job, LinkNote) in s.checkpoints
    && (p.autoOpportunity && p.score >= p.threshold ==> KeyOf(job, CreateOpportunity) in s.checkpoints)
  }

  lemma CleanWrites(s: Saga, job: Job, p: Prepared, env: Env)
    requires Clean(env.update) && Clean(env.note) && Clean(env.link) && Clean(env.opportunity)
    requires KeyOf(job, CreateNote) in s.checkpoints ==> s.checkpoints[KeyOf(job, CreateNote)].externalId !in {None, Some("")}
    ensures var (s1, result) := Writes(s, job, p, env);
      && result == Some(WantsOpportunity(p))
      && s1.ledger == s.ledger + OwedSuffix(s, job, p, env)
      && SameRows(s, s1)
      && AllDone(s1, job, p)
  {
    hide EnsureUpdate, EnsureNote, EnsureLink, EnsureOpportunity;
    var s1 := EnsureUpdate(s, job, env.update).0;
    CleanUpdate(s, job, env.update);
    KeptKey(s, s1, KeyOf(job, UpdatePerson), KeyOf(job, CreateNote));
    KeptKey(s, s1, KeyOf(job, UpdatePerson), KeyOf(job, LinkNote));
    KeptKey(s, s1, KeyOf(job, UpdatePerson), KeyOf(job, CreateOpportunity));
    var (s2, noteId) := EnsureNote(s1, job, env.note);
    CleanNote(s1, job, env.note);
    KeptKey(s1, s2, KeyOf(job, CreateNote), KeyOf(job, UpdatePerson));
    KeptKey(s1, s2, KeyOf(job, CreateNote), KeyOf(job, LinkNote));
    KeptKey(s1, s2, KeyOf(job, CreateNote), KeyOf(job, CreateOpportunity));
    var s3 := EnsureLink(s2, job, noteId.value, env.link).0;
    CleanLink(s2, job, noteId.value, env.link);
    KeptKey(s2, s3, KeyOf(job, LinkNote), KeyOf(job, UpdatePerson));
    KeptKey(s2, s3, KeyOf(job, LinkNote), KeyOf(job, CreateNote));
    KeptKey(s2, s3, KeyOf(job, LinkNote), KeyOf(job, CreateOpportunity));
    if WantsOpportunity(p) {
      var s4 := EnsureOpportunity(s3, job, env.opportunity).0;
      CleanOpportunity(s3, job, env.opportunity);
      KeptKey(s3, s4, KeyOf(job, CreateOpportunity), KeyOf(job, UpdatePerson));
      KeptKey(s3, s4, KeyOf(job, CreateOpportunity), KeyOf(job, CreateNote));
      KeptKey(s3, s4, KeyOf(job, CreateOpportunity), KeyOf(job, LinkNote));
    }
  }

  lemma KeptKey(s: Saga, s1: Saga, key: Key, other: Key)
    requires s1.checkpoints - {key} == s.checkpoints - {key} && other != key
    ensures other in s1.checkpoints <==> other in s.checkpoints
    ensures other in s.checkpoints ==> s1.checkpoints[other] == s.checkpoints[other]
  {
    assert other in s1.checkpoints - {key} <==> other in s1.checkpoints;
    assert other in s.checkpoints - {key} <==> other in s.checkpoints;
    if other in s.checkpoints { assert (s1.checkpoints - {key})[other] == (s.checkpoints - {key})[other]; }
  }

  /** From any reachable state a fault-free attempt performs exactly the missing writes, in order, and ends in success. */
  lemma CleanAttemptCompletes(s: Saga, job: Job, env: Env)
    requires Reachable(s) && FaultFree(env) && (job.tenantId, job.logId) in s.logs
    requires KeyOf(job, CreateNote) in s.checkpoints ==> s.checkpoints[KeyOf(job, CreateNote)].externalId != Some("")
    ensures var (s1, ok) := Process(s, job, env);
      && ok
      && s1.ledger == s.ledger + OwedSuffix(s, job, env.prepared.value, env)
      && AllDone(s1, job, env.prepared.value)
      && (job.tenantId, job.logId) in s1.logs && s1.logs[(job.tenantId, job.logId)].status == Success
      && |s1.history| == |s.history| + 1
      && (s1.history[|s.history|].opportunityCreated
          <==> env.prepared.value.autoOpportunity && env.prepared.value.score >= env.prepared.value.threshold)
  {
    ReachableInv(s);
    var at, p := (job.tenantId, job.logId), env.prepared.value;
    var s0 := s.(logs := s.logs[at := Log(Processing, env.attempt)]);
    CleanWrites(s0, job, p, env);
    assert OwedSuffix(s0, job, p, env) == OwedSuffix(s, job, p, env);
    hide Writes;
  }
}
