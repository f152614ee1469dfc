/** Exactly when an attempt of the enrich-and-score job returns, and when it makes an opportunity. */
module EnrichOutcomes {
  import opened Wrappers
  import opened EnrichSaga
  import opened EnrichSagaProofs
  import opened EnrichSagaTheorems

  /** A checkpointed step gets through: done before, or carried out, answered, recorded and acknowledged now. */
  predicate Passes(s: Saga, job: Job, action: WriteAction, fate: Fate)
  {
    fate.read && (Key(job.tenantId, job.logId, action) in s.checkpoints
                  || (fate.effect && fate.response && fate.checkpoint && fate.ack))
  }

  /** A note done before must have left an id to link. */
  predicate NotePasses(s: Saga, job: Job, fate: Fate)
  {
    var key := Key(job.tenantId, job.logId, CreateNote);
    Passes(s, job, CreateNote, fate)
      && (key in s.checkpoints ==> s.checkpoints[key].externalId.Some? && s.checkpoints[key].externalId != Some(""))
  }

  /** Only the rows of one key may have changed. */
  predicate OnlyKey(s: Saga, s1: Saga, job: Job, action: WriteAction)
  {
    var key := Key(job.tenantId, job.logId, action);
    && s1.checkpoints - {key} == s.checkpoints - {key}
    && s.ledger <= s1.ledger && forall e <- s1.ledger[|s.ledger|..] :: e.key == key
  }

  lemma StepPasses(s: Saga, job: Job, noteId: string, fate: Fate)
    ensures EnsureUpdate(s, job, fate).1 <==> Passes(s, job, UpdatePerson, fate)
    ensures EnsureNote(s, job, fate).1.Some? <==> NotePasses(s, job, fate)
    ensures EnsureLink(s, job, noteId, fate).1 <==> Passes(s, job, LinkNote, fate)
    ensures EnsureOpportunity(s, job, fate).1 <==> Passes(s, job, CreateOpportunity, fate)
  {}

  lemma StepTouches(s: Saga, job: Job, noteId: string, fate: Fate)
    ensures OnlyKey(s, EnsureUpdate(s, job, fate).0, job, UpdatePerson)
    ensures OnlyKey(s, EnsureNote(s, job, fate).0, job, CreateNote)
    ensures OnlyKey(s, EnsureLink(s, job, noteId, fate).0, job, LinkNote)
    ensures OnlyKey(s, EnsureOpportunity(s, job, fate).0, job, CreateOpportunity)
  {
    NothingTouches(s, job, UpdatePerson);
    NothingTouches(s, job, CreateNote);
    NothingTouches(s, job, LinkNote);
    NothingTouches(s, job, CreateOpportunity);
    PerformTouchesKey(s, job, UpdatePerson, None, None, fate);
    PerformTouchesKey(s, job, CreateNote, None, Some(fate.id), fate);
    PerformTouchesKey(s, job, LinkNote, Some(noteId), Some(noteId), fate);
    PerformTouchesKey(s, job, CreateOpportunity, None, Some(fate.id), fate);
    hide OnlyKey, Perform;
  }

  lemma NothingTouches(s: Saga, job: Job, action: WriteAction)
    ensures OnlyKey(s, s, job, action)
  {}

  lemma PerformTouchesKey(s: Saga, job: Job, action: WriteAction, target: Option<string>, ext: Option<string>, fate: Fate)
    ensures OnlyKey(s, Perform(s, job, action, target, ext, fate).0, job, action)
  {}

  lemma OtherStepsSame(s: Saga, s1: Saga, job: Job, action: WriteAction, other: WriteAction, fate: Fate)
    requires OnlyKey(s, s1, job, action) && other != action
    ensures Passes(s1, job, other, fate) == Passes(s, job, other, fate)
    ensures NotePasses(s1, job, fate) == NotePasses(s, job, fate) || action == CreateNote
  {
    KeptKey(s, s1, Key(job.tenantId, job.logId, action), Key(job.tenantId, job.logId, other));
    if action != CreateNote {
      KeptKey(s, s1, Key(job.tenantId, job.logId, action), Key(job.tenantId, job.logId, CreateNote));
    }
  }

  /** All four writes go through, the last one where the tenant's switch is on and the score meets the threshold. */
  predicate WritesPass(s: Saga, job: Job, p: Prepared, env: Env)
  {
    && Passes(s, job, UpdatePerson, env.update)
    && NotePasses(s, job, env.note)
    && Passes(s, job, LinkNote, env.link)
    && (p.autoOpportunity && p.score >= p.threshold ==> Passes(s, job, CreateOpportunity, env.opportunity))
  }

  lemma WritesExactlyWhen(s: Saga, job: Job, p: Prepared, env: Env)
    ensures Writes(s, job, p, env).1.Some? <==> WritesPass(s, job, p, env)
    ensures Writes(s, job, p, env).1.Some? ==> Writes(s, job, p, env).1 == Some(p.autoOpportunity && p.score >= p.threshold)
  {
    hide EnsureUpdate, EnsureNote, EnsureLink, EnsureOpportunity;
    StepPasses(s, job, "", env.update);
    StepTouches(s, job, "", env.update);
    var s1 := EnsureUpdate(s, job, env.update).0;
    OtherStepsSame(s, s1, job, UpdatePerson, LinkNote, env.link);
    OtherStepsSame(s, s1, job, UpdatePerson, CreateOpportunity, env.opportunity);
    OtherStepsSame(s, s1, job, UpdatePerson, CreateNote, env.note);
    StepPasses(s1, job, "", env.note);
    StepTouches(s1, job, "", env.note);
    var (s2, noteId) := EnsureNote(s1, job, env.note);
    OtherStepsSame(s1, s2, job, CreateNote, LinkNote, env.link);
    OtherStepsSame(s1, s2, job, CreateNote, CreateOpportunity, env.opportunity);
    if noteId.Some? {
      StepPasses(s2, job, noteId.value, env.link);
      StepTouches(s2, job, noteId.value, env.link);
      var s3 := EnsureLink(s2, job, noteId.value, env.link).0;
      OtherStepsSame(s2, s3, job, LinkNote, CreateOpportunity, env.opportunity);
      StepPasses(s3, job, "", env.opportunity);
    }
    hide Passes, NotePasses, OnlyKey;
  }

  /** An attempt returns exactly when the log exists, everything was prepared, all writes it owes pass, and the bookkeeping is fine. */
  lemma ReturnsExactlyWhen(s: Saga, job: Job, env: Env)
    ensures Process(s, job, env).1 <==>
      && (job.tenantId, job.logId) in s.logs
      && env.prepared.Some?
      && WritesPass(s, job, env.prepared.value, env)
      && env.late == LateFine
  {
    var at := (job.tenantId, job.logId);
    if at in s.logs && env.prepared.Some? {
      var s0 := s.(logs := s.logs[at := Log(Processing, env.attempt)]);
      WritesExactlyWhen(s0, job, env.prepared.value, env);
      assert WritesPass(s0, job, env.prepared.value, env) == WritesPass(s, job, env.prepared.value, env);
    }
    hide Writes, WritesPass;
  }

  /** An attempt writes its score row exactly when the writes it owes pass and the history takes the row, whatever fails after it. */
  lemma ScoresExactlyWhen(s: Saga, job: Job, env: Env)
    ensures Scores(s, Attempt(job, env)) <==>
      && (job.tenantId, job.logId) in s.logs
      && env.prepared.Some?
      && WritesPass(s, job, env.prepared.value, env)
      && env.late != HistoryFails
  {
    var at := (job.tenantId, job.logId);
    if at in s.logs && env.prepared.Some? {
      var s0 := s.(logs := s.logs[at := Log(Processing, env.attempt)]);
      WritesExactlyWhen(s0, job, env.prepared.value, env);
      WritesAnswer(s0, job, env.prepared.value, env);
      assert WritesPass(s0, job, env.prepared.value, env) == WritesPass(s, job, env.prepared.value, env);
    }
    hide Writes, WritesPass;
  }

  /** Checkpoints are never changed, and a new one names the person of the attempt that wrote it. */
  ghost predicate NewOnesName(s: Saga, s1: Saga, person: string)
  {
    && (forall key <- s.checkpoints :: key in s1.checkpoints && s1.checkpoints[key] == s.checkpoints[key])
    && (forall key <- s1.checkpoints | key !in s.checkpoints :: s1.checkpoints[key].personId == person)
  }

  lemma NamesThen(s: Saga, s1: Saga, s2: Saga, person: string)
    requires NewOnesName(s, s1, person) && NewOnesName(s1, s2, person)
    ensures NewOnesName(s, s2, person)
  {}

  lemma StepsNamePerson(s: Saga, job: Job, noteId: string, fate: Fate)
    ensures NewOnesName(s, EnsureUpdate(s, job, fate).0, job.personId)
    ensures NewOnesName(s, EnsureNote(s, job, fate).0, job.personId)
    ensures NewOnesName(s, EnsureLink(s, job, noteId, fate).0, job.personId)
    ensures NewOnesName(s, EnsureOpportunity(s, job, fate).0, job.personId)
  {}

  lemma WritesNamePerson(s: Saga, job: Job, p: Prepared, env: Env)
    ensures NewOnesName(s, Writes(s, job, p, env).0, job.personId)
  {
    hide EnsureUpdate, EnsureNote, EnsureLink, EnsureOpportunity, NewOnesName;
    var s1 := EnsureUpdate(s, job, env.update).0;
    StepsNamePerson(s, job, "", env.update);
    var (s2, noteId) := EnsureNote(s1, job, env.note);
    StepsNamePerson(s1, job, "", env.note);
    NamesThen(s, s1, s2, job.personId);
    if noteId.Some? {
      var s3 := EnsureLink(s2, job, noteId.value, env.link).0;
      StepsNamePerson(s2, job, noteId.value, env.link);
      NamesThen(s, s2, s3, job.personId);
      StepsNamePerson(s3, job, "", env.opportunity);
      NamesThen(s, s3, EnsureOpportunity(s3, job, env.opportunity).0, job.personId);
    }
  }

  lemma AttemptNamesPerson(s: Saga, job: Job, env: Env)
    ensures NewOnesName(s, Process(s, job, env).0, job.personId)
  {
    hide Writes;
    var at := (job.tenantId, job.logId);
    if at in s.logs && env.prepared.Some? {
      var s0 := s.(logs := s.logs[at := Log(Processing, env.attempt)]);
      BodyKeepsWrites(s0, job, env);
      WritesNamePerson(s0, job, env.prepared.value, env);
      hide NewOnesName, Body;
      SameCheckpoints(s, s0, Writes(s0, job, env.prepared.value, env).0, Process(s, job, env).0, job.personId);
    } else {
      assert Process(s, job, env).0.checkpoints == s.checkpoints;
    }
  }

  /** Logs and score rows do not matter here. */
  lemma SameCheckpoints(s: Saga, s0: Saga, s1: Saga, s2: Saga, person: string)
    requires s0.checkpoints == s.checkpoints && NewOnesName(s0, s1, person) && s2.checkpoints == s1.checkpoints
    ensures NewOnesName(s, s2, person)
  {}

  /** No opportunity effect, and no opportunity checkpoint, was added. */
  ghost predicate NoNewOpportunity(s: Saga, s1: Saga)
  {
    && (forall key: Key | key.action == CreateOpportunity :: key in s1.checkpoints <==> key in s.checkpoints)
    && s.ledger <= s1.ledger && forall e <- s1.ledger[|s.ledger|..] :: e.key.action != CreateOpportunity
  }

  lemma OtherKeysNoOpportunity(s: Saga, s1: Saga, s2: Saga, job: Job, action: WriteAction)
    requires NoNewOpportunity(s, s1) && OnlyKey(s1, s2, job, action) && action != CreateOpportunity
    ensures NoNewOpportunity(s, s2)
  {
    forall key: Key | key.action == CreateOpportunity ensures key in s2.checkpoints <==> key in s1.checkpoints {
      KeptKey(s1, s2, Key(job.tenantId, job.logId, action), key);
    }
    assert s2.ledger[|s.ledger|..] == s1.ledger[|s.ledger|..] + s2.ledger[|s1.ledger|..];
  }

  /** With the tenant's switch off, or a score below the threshold, an attempt adds no opportunity, whatever fails. */
  lemma OpportunityNeedsBoth(s: Saga, job: Job, env: Env)
    requires env.prepared.Some? ==> !env.prepared.value.autoOpportunity || env.prepared.value.score < env.prepared.value.threshold
    ensures NoNewOpportunity(s, Process(s, job, env).0)
  {
    hide Writes;
    var at := (job.tenantId, job.logId);
    if at in s.logs && env.prepared.Some? {
      var s0 := s.(logs := s.logs[at := Log(Processing, env.attempt)]);
      BodyKeepsWrites(s0, job, env);
      WritesAddNoOpportunity(s0, job, env.prepared.value, env);
      hide NoNewOpportunity, Body;
      var s1 := Writes(s0, job, env.prepared.value, env).0;
      SameWrites(s, s0, s1, Process(s, job, env).0);
    } else {
      assert NoNewOpportunity(s, Process(s, job, env).0);
    }
  }

  /** After the writes an attempt touches neither checkpoints nor the CRM. */
  lemma BodyKeepsWrites(s: Saga, job: Job, env: Env)
    requires env.prepared.Some?
    ensures var s1, s2 := Writes(s, job, env.prepared.value, env).0, Body(s, job, env).0;
      s2.checkpoints == s1.checkpoints && s2.ledger == s1.ledger
  {
    hide Writes;
  }

  /** Logs and score rows do not matter here. */
  lemma SameWrites(s: Saga, s0: Saga, s1: Saga, s2: Saga)
    requires s0.checkpoints == s.checkpoints && s0.ledger == s.ledger
    requires NoNewOpportunity(s0, s1) && s2.checkpoints == s1.checkpoints && s2.ledger == s1.ledger
    ensures NoNewOpportunity(s, s2)
  {}

  lemma WritesAddNoOpportunity(s: Saga, job: Job, p: Prepared, env: Env)
    requires !p.autoOpportunity || p.score < p.threshold
    ensures NoNewOpportunity(s, Writes(s, job, p, env).0)
  {
    hide EnsureUpdate, EnsureNote, EnsureLink, EnsureOpportunity;
    var s1 := EnsureUpdate(s, job, env.update).0;
    StepTouches(s, job, "", env.update);
    assert NoNewOpportunity(s, s);
    OtherKeysNoOpportunity(s, s, s1, job, UpdatePerson);
    var (s2, noteId) := EnsureNote(s1, job, env.note);
    StepTouches(s1, job, "", env.note);
    OtherKeysNoOpportunity(s, s1, s2, job, CreateNote);
    if noteId.Some? {
      var s3 := EnsureLink(s2, job, noteId.value, env.link).0;
      StepTouches(s2, job, noteId.value, env.link);
      OtherKeysNoOpportunity(s, s2, s3, job, LinkNote);
    }
    hide NoNewOpportunity, OnlyKey;
  }

  /** With both, equality included, an attempt that returns leaves the opportunity's checkpoint and reports it with the score it saw. */
  lemma OpportunityMade(s: Saga, job: Job, env: Env)
    requires env.prepared.Some? && env.prepared.value.autoOpportunity && env.prepared.value.score >= env.prepared.value.threshold
    requires Process(s, job, env).1
    ensures var s1 := Process(s, job, env).0; var n := |s.history|;
      && Key(job.tenantId, job.logId, CreateOpportunity) in s1.checkpoints
      && |s1.history| == n + 1
      && s1.history[n] == Score(job, env.prepared.value.score, true,
                                s1.checkpoints[Key(job.tenantId, job.logId, CreateOpportunity)].externalId)
  {
    var s0 := s.(logs := s.logs[(job.tenantId, job.logId) := Log(Processing, env.attempt)]);
    WritesMakeOpportunity(s0, job, env.prepared.value, env);
    hide Writes;
  }

  lemma WritesMakeOpportunity(s: Saga, job: Job, p: Prepared, env: Env)
    requires p.autoOpportunity && p.score >= p.threshold
    ensures Writes(s, job, p, env).1.Some? ==>
      Writes(s, job, p, env).1 == Some(true) && Key(job.tenantId, job.logId, CreateOpportunity) in Writes(s, job, p, env).0.checkpoints
    ensures SameRows(s, Writes(s, job, p, env).0)
  {
    WritesAnswer(s, job, p, env);
    hide EnsureUpdate, EnsureNote, EnsureLink;
  }

  /** Every attempt counts itself on its log; one that throws leaves the log FAILED where its catch block runs. */
  lemma AttemptMarksItsLog(s: Saga, job: Job, env: Env)
    requires (job.tenantId, job.logId) in s.logs
    ensures var (s1, ok) := Process(s, job, env); var at := (job.tenantId, job.logId);
      && at in s1.logs && s1.logs[at].attempts == env.attempt
      && (ok ==> s1.logs[at].status == Success)
      && (!ok && env.catchRuns ==> s1.logs[at].status == Failed)
      && (!ok && !env.catchRuns && env.late != StatusUnacknowledged ==> s1.logs[at].status == Processing)
      && (!env.catchRuns && env.late == StatusUnacknowledged && |s1.history| > |s.history| ==> s1.logs[at].status == Success)
  {
    var s0 := s.(logs := s.logs[(job.tenantId, job.logId) := Log(Processing, env.attempt)]);
    if env.prepared.Some? {
      WritesAnswer(s0, job, env.prepared.value, env);
    }
    hide Writes;
  }
}
