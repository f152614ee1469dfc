/** What any sequence of attempts keeps: conservation of CRM effects, the checkpoint prefix, the note that is linked. */
module EnrichSagaProofs {
  import opened Wrappers
  import opened EnrichSaga

  // ------------------------------------------------------------- the ledger

  function Count(ledger: seq<Effect>, key: Key): nat
  {
    if ledger == [] then 0
    else Count(ledger[..|ledger| - 1], key) + (if ledger[|ledger| - 1].key == key then 1 else 0)
  }

  /** Effects of the key whose checkpoint never committed. */
  function Uncommitted(ledger: seq<Effect>, key: Key): nat
  {
    if ledger == [] then 0
    else
      var last := ledger[|ledger| - 1];
      Uncommitted(ledger[..|ledger| - 1], key) + (if last.key == key && !last.committed then 1 else 0)
  }

  lemma CountNext(ledger: seq<Effect>, e: Effect, key: Key)
    ensures Count(ledger + [e], key) == Count(ledger, key) + (if e.key == key then 1 else 0)
    ensures Uncommitted(ledger + [e], key) == Uncommitted(ledger, key) + (if e.key == key && !e.committed then 1 else 0)
  {
    assert (ledger + [e])[..|ledger|] == ledger;
  }

  // -------------------------------------------------------------- invariant

  predicate Done(s: Saga, tenantId: string, logId: string, action: WriteAction)
  {
    Key(tenantId, logId, action) in s.checkpoints
  }

  ghost predicate Conserved(s: Saga)
  {
    forall key :: Count(s.ledger, key) == Uncommitted(s.ledger, key) + (if key in s.checkpoints then 1 else 0)
  }

  predicate PrefixOf(s: Saga, t: string, l: string)
  {
    && (Done(s, t, l, CreateNote) ==> Done(s, t, l, UpdatePerson))
    && (Done(s, t, l, LinkNote) ==> Done(s, t, l, CreateNote))
    && (Done(s, t, l, CreateOpportunity) ==> Done(s, t, l, LinkNote))
  }

  ghost predicate Prefixes(s: Saga)
  {
    forall t, l :: PrefixOf(s, t, l)
  }

  /** The checkpoint of a note or opportunity stores the id of its committed effect. */
  ghost predicate IdsStored(s: Saga)
  {
    && (forall e <- s.ledger :: e.committed && e.key.action != UpdatePerson ==>
          e.key in s.checkpoints
          && s.checkpoints[e.key].externalId == if e.key.action == LinkNote then e.target else Some(e.id))
    && (forall key | key in s.checkpoints :: key.action == CreateNote ==> s.checkpoints[key].externalId.Some?)
  }

  /** Every link effect targets the note of its log's checkpoint. */
  predicate LinksCheckpointedNote(s: Saga, e: Effect)
  {
    var note := Key(e.key.tenantId, e.key.logId, CreateNote);
    e.key.action == LinkNote ==> note in s.checkpoints && s.checkpoints[note].externalId == e.target
  }

  predicate ScoreBacked(s: Saga, row: Score)
  {
    var key := KeyOf(row.job, CreateOpportunity);
    row.opportunityCreated ==> key in s.checkpoints && s.checkpoints[key].externalId == row.opportunityId
  }

  predicate SuccessBacked(s: Saga, at: (string, string))
    requires at in s.logs
  {
    s.logs[at].status == Success ==> Done(s, at.0, at.1, LinkNote)
  }

  ghost predicate Inv(s: Saga)
  {
    && Conserved(s)
    && Prefixes(s)
    && IdsStored(s)
    && (forall e <- s.ledger :: LinksCheckpointedNote(s, e))
    && (forall row <- s.history :: ScoreBacked(s, row))
    && (forall at | at in s.logs :: SuccessBacked(s, at))
  }

  // ------------------------------------------------------------ the four steps

  /** A write not yet checkpointed, about to store what it should: the new record's id, or the linked note's. */
  predicate Faithful(s: Saga, job: Job, action: WriteAction, target: Option<string>, ext: Option<string>, fate: Fate)
  {
    && KeyOf(job, action) !in s.checkpoints
    && match action
       case UpdatePerson => true
       case CreateNote => ext == Some(fate.id)
       case LinkNote =>
         var note := KeyOf(job, CreateNote);
         note in s.checkpoints && target == ext == s.checkpoints[note].externalId
       case CreateOpportunity => ext == Some(fate.id)
  }

  /** Such a write in its turn in the enrich-and-score saga. */
  predicate Ready(s: Saga, job: Job, action: WriteAction, target: Option<string>, ext: Option<string>, fate: Fate)
  {
    && Faithful(s, job, action, target, ext, fate)
    && (action == CreateNote ==> Done(s, job.tenantId, job.logId, UpdatePerson))
    && (action == CreateOpportunity ==> Done(s, job.tenantId, job.logId, LinkNote))
  }

  lemma PerformConserves(s: Saga, job: Job, action: WriteAction, target: Option<string>, ext: Option<string>, fate: Fate)
    requires Conserved(s) && KeyOf(job, action) !in s.checkpoints
    ensures Conserved(Perform(s, job, action, target, ext, fate).0)
  {
    var s' := Perform(s, job, action, target, ext, fate).0;
    if fate.effect {
      forall key ensures Count(s'.ledger, key) == Uncommitted(s'.ledger, key) + (if key in s'.checkpoints then 1 else 0) {
        CountNext(s.ledger, s'.ledger[|s.ledger|], key);
        assert Count(s.ledger, key) == Uncommitted(s.ledger, key) + (if key in s.checkpoints then 1 else 0);
      }
    }
  }

  lemma PerformKeepsPrefixes(s: Saga, job: Job, action: WriteAction, target: Option<string>, ext: Option<string>, fate: Fate)
    requires Prefixes(s) && Ready(s, job, action, target, ext, fate)
    ensures Prefixes(Perform(s, job, action, target, ext, fate).0)
  {
    forall t, l ensures PrefixOf(Perform(s, job, action, target, ext, fate).0, t, l) {
      assert PrefixOf(s, t, l);
      assert PrefixOf(s, job.tenantId, job.logId);
    }
  }

  lemma PerformKeepsIds(s: Saga, job: Job, action: WriteAction, target: Option<string>, ext: Option<string>, fate: Fate)
    requires IdsStored(s) && Faithful(s, job, action, target, ext, fate)
    requires forall e <- s.ledger :: LinksCheckpointedNote(s, e)
    ensures var s' := Perform(s, job, action, target, ext, fate).0;
      IdsStored(s') && forall e <- s'.ledger :: LinksCheckpointedNote(s', e)
  {
    var s' := Perform(s, job, action, target, ext, fate).0;
    forall e <- s'.ledger ensures LinksCheckpointedNote(s', e) {
      if e in s.ledger { assert LinksCheckpointedNote(s, e); }
    }
  }

  lemma PerformKeepsRows(s: Saga, job: Job, action: WriteAction, target: Option<string>, ext: Option<string>, fate: Fate)
    requires KeyOf(job, action) !in s.checkpoints
    requires (forall row <- s.history :: ScoreBacked(s, row)) && (forall at | at in s.logs :: SuccessBacked(s, at))
    ensures var s' := Perform(s, job, action, target, ext, fate).0;
      (forall row <- s'.history :: ScoreBacked(s', row)) && (forall at | at in s'.logs :: SuccessBacked(s', at))
  {
    var s' := Perform(s, job, action, target, ext, fate).0;
    forall row <- s'.history ensures ScoreBacked(s', row) { assert ScoreBacked(s, row); }
    forall at | at in s'.logs ensures SuccessBacked(s', at) { assert SuccessBacked(s, at); }
  }

  lemma PerformKeeps(s: Saga, job: Job, action: WriteAction, target: Option<string>, ext: Option<string>, fate: Fate)
    requires Inv(s) && Ready(s, job, action, target, ext, fate)
    ensures Inv(Perform(s, job, action, target, ext, fate).0)
  {
    PerformConserves(s, job, action, target, ext, fate);
    PerformKeepsPrefixes(s, job, action, target, ext, fate);
    PerformKeepsIds(s, job, action, target, ext, fate);
    PerformKeepsRows(s, job, action, target, ext, fate);
    hide Perform, Ready, Conserved, Prefixes, IdsStored;
  }

  /** The CRM writes touch neither log rows nor score history. */
  predicate SameRows(a: Saga, b: Saga)
  {
    a.logs == b.logs && a.history == b.history
  }

  lemma UpdateKeeps(s: Saga, job: Job, fate: Fate)
    requires Inv(s)
    ensures var (s1, ok) := EnsureUpdate(s, job, fate);
      Inv(s1) && SameRows(s, s1) && (ok ==> KeyOf(job, UpdatePerson) in s1.checkpoints)
  {
    if fate.read && KeyOf(job, UpdatePerson) !in s.checkpoints { PerformKeeps(s, job, UpdatePerson, None, None, fate); }
  }

  lemma NoteKeeps(s: Saga, job: Job, fate: Fate)
    requires Inv(s) && KeyOf(job, UpdatePerson) in s.checkpoints
    ensures var (s1, noteId) := EnsureNote(s, job, fate);
      Inv(s1) && SameRows(s, s1)
      && (noteId.Some? ==> KeyOf(job, CreateNote) in s1.checkpoints && s1.checkpoints[KeyOf(job, CreateNote)].externalId == noteId)
  {
    if fate.read && KeyOf(job, CreateNote) !in s.checkpoints { PerformKeeps(s, job, CreateNote, None, Some(fate.id), fate); }
  }

  lemma LinkKeeps(s: Saga, job: Job, noteId: string, fate: Fate)
    requires Inv(s) && KeyOf(job, CreateNote) in s.checkpoints && s.checkpoints[KeyOf(job, CreateNote)].externalId == Some(noteId)
    ensures var (s1, ok) := EnsureLink(s, job, noteId, fate);
      Inv(s1) && SameRows(s, s1) && (ok ==> KeyOf(job, LinkNote) in s1.checkpoints)
  {
    if fate.read && KeyOf(job, LinkNote) !in s.checkpoints { PerformKeeps(s, job, LinkNote, Some(noteId), Some(noteId), fate); }
  }

  lemma OpportunityKeeps(s: Saga, job: Job, fate: Fate)
    requires Inv(s) && KeyOf(job, LinkNote) in s.checkpoints
    ensures var (s1, ok) := EnsureOpportunity(s, job, fate);
      && Inv(s1) && SameRows(s, s1)
      && KeyOf(job, LinkNote) in s1.checkpoints
      && (ok ==> KeyOf(job, CreateOpportunity) in s1.checkpoints)
  {
    if fate.read && KeyOf(job, CreateOpportunity) !in s.checkpoints {
      PerformKeeps(s, job, CreateOpportunity, None, Some(fate.id), fate);
    }
  }

  lemma WritesKeeps(s: Saga, job: Job, p: Prepared, env: Env)
    requires Inv(s)
    ensures var (s1, result) := Writes(s, job, p, env);
      && Inv(s1)
      && SameRows(s, s1)
      && (result.Some? ==> KeyOf(job, LinkNote) in s1.checkpoints)
      && (result == Some(true) ==> KeyOf(job, CreateOpportunity) in s1.checkpoints)
  {
    hide Inv, EnsureUpdate, EnsureNote, EnsureLink, EnsureOpportunity;
    UpdateKeeps(s, job, env.update);
    var (s1, updated) := EnsureUpdate(s, job, env.update);
    if updated {
      NoteKeeps(s1, job, env.note);
      var (s2, noteId) := EnsureNote(s1, job, env.note);
      if noteId.Some? {
        LinkKeeps(s2, job, noteId.value, env.link);
        var (s3, linked) := EnsureLink(s2, job, noteId.value, env.link);
        if linked { OpportunityKeeps(s3, job, env.opportunity); }
      }
    }
  }

  /** A log row may change as long as success is backed by the link checkpoint. */
  lemma SetLogKeeps(s: Saga, job: Job, row: Log)
    requires Inv(s) && (row.status == Success ==> KeyOf(job, LinkNote) in s.checkpoints)
    ensures Inv(s.(logs := s.logs[(job.tenantId, job.logId) := row]))
  {
    var s' := s.(logs := s.logs[(job.tenantId, job.logId) := row]);
    assert forall key :: Count(s'.ledger, key) == Count(s.ledger, key);
    forall t, l ensures PrefixOf(s', t, l) { assert PrefixOf(s, t, l); }
    forall e <- s'.ledger ensures LinksCheckpointedNote(s', e) { assert LinksCheckpointedNote(s, e); }
    forall r <- s'.history ensures ScoreBacked(s', r) { assert ScoreBacked(s, r); }
    forall at | at in s'.logs ensures SuccessBacked(s', at) {
      if at in s.logs { assert SuccessBacked(s, at); }
    }
  }

  lemma AddScoreKeeps(s: Saga, row: Score)
    requires Inv(s) && ScoreBacked(s, row)
    ensures Inv(s.(history := s.history + [row]))
  {
    var s' := s.(history := s.history + [row]);
    forall t, l ensures PrefixOf(s', t, l) { assert PrefixOf(s, t, l); }
    forall e <- s'.ledger ensures LinksCheckpointedNote(s', e) { assert LinksCheckpointedNote(s, e); }
    forall r <- s'.history ensures ScoreBacked(s', r) {
      if r in s.history { assert ScoreBacked(s, r); }
    }
    forall at | at in s'.logs ensures SuccessBacked(s', at) { assert SuccessBacked(s, at); }
  }

  lemma FinishKeeps(s: Saga, job: Job, p: Prepared, opportunity: bool, late: Late)
    requires Inv(s) && (job.tenantId, job.logId) in s.logs && KeyOf(job, LinkNote) in s.checkpoints
    requires opportunity ==> KeyOf(job, CreateOpportunity) in s.checkpoints
    ensures Inv(Finish(s, job, p, opportunity, late).0)
    ensures (job.tenantId, job.logId) in Finish(s, job, p, opportunity, late).0.logs
  {
    var id := if opportunity then s.checkpoints[KeyOf(job, CreateOpportunity)].externalId else None;
    var row := Score(job, p.score, opportunity, id);
    AddScoreKeeps(s, row);
    SetLogKeeps(s.(history := s.history + [row]), job, s.logs[(job.tenantId, job.logId)].(status := Success));
  }

  lemma BodyKeeps(s: Saga, job: Job, env: Env)
    requires Inv(s) && (job.tenantId, job.logId) in s.logs
    ensures Inv(Body(s, job, env).0) && (job.tenantId, job.logId) in Body(s, job, env).0.logs
  {
    if env.prepared.Some? {
      hide Inv, Writes, Finish;
      var p := env.prepared.value;
      WritesKeeps(s, job, p, env);
      var (s1, opportunity) := Writes(s, job, p, env);
      if opportunity.Some? { FinishKeeps(s1, job, p, opportunity.value, env.late); }
    }
  }

  lemma ProcessKeeps(s: Saga, job: Job, env: Env)
    requires Inv(s)
    ensures Inv(Process(s, job, env).0)
  {
    var at := (job.tenantId, job.logId);
    if at in s.logs {
      var s0 := s.(logs := s.logs[at := Log(Processing, env.attempt)]);
      SetLogKeeps(s, job, Log(Processing, env.attempt));
      BodyKeeps(s0, job, env);
      var s1 := Body(s0, job, env).0;
      SetLogKeeps(s1, job, s1.logs[at].(status := Failed));
    }
  }

  lemma {:induction false} RunKeeps(logs: map<(string, string), Log>, attempts: seq<Attempt>)
    requires Fresh(logs)
    ensures Inv(Run(logs, attempts))
  {
    if attempts == [] {
    } else {
      var last := attempts[|attempts| - 1];
      RunKeeps(logs, attempts[..|attempts| - 1]);
      ProcessKeeps(Run(logs, attempts[..|attempts| - 1]), last.job, last.env);
    }
  }

  lemma ReachableInv(s: Saga)
    requires Reachable(s)
    ensures Inv(s)
  {
    var logs, attempts :| Fresh(logs) && s == Run(logs, attempts);
    RunKeeps(logs, attempts);
  }
}
