/** The processor object: checkpoint table, webhook logs and score history updated in place. */
module EnrichService {
  import opened Wrappers
  import opened EnrichSaga

  class JobActionCheckpointService {
    var table: map<Key, Checkpoint>

    constructor ()
      ensures table == map[]
    {
      table := map[];
    }

    method GetCompleted(key: Key) returns (completed: bool, externalId: Option<string>)
      ensures completed <==> key in table
      ensures externalId == if key in table then table[key].externalId else None
    {
      completed, externalId := false, None;
      if key in table {
        completed, externalId := true, table[key].externalId;
      }
    }

    /** The upsert: a second success overwrites the first. */
    method RecordSuccess(key: Key, personId: string, externalId: Option<string>)
      modifies this
      ensures table == old(table)[key := Checkpoint(personId, externalId)]
    {
      table := table[key := Checkpoint(personId, externalId)];
    }
  }

  /** `ledger` is what the CRM on the other side has really done. */
  class EnrichAndScoreProcessor {
    const checkpoints: JobActionCheckpointService
    var logs: map<(string, string), Log>
    var history: seq<Score>
    ghost var ledger: seq<Effect>

    ghost function View(): Saga
      reads this, checkpoints
    {
      Saga(checkpoints.table, ledger, logs, history)
    }

    constructor (received: map<(string, string), Log>)
      ensures View() == Run(received, []) && fresh(checkpoints)
    {
      checkpoints := new JobActionCheckpointService();
      logs, history, ledger := received, [], [];
    }

    /** A CRM call, then its checkpoint; false when either threw. */
    method Write(job: Job, action: WriteAction, target: Option<string>, externalId: Option<string>, fate: Fate) returns (ok: bool)
      modifies this`ledger, checkpoints
      ensures (View(), ok) == Perform(old(View()), job, action, target, externalId, fate)
    {
      if !fate.effect {
        return false;
      }
      ledger := ledger + [Effect(KeyOf(job, action), fate.id, target, fate.response && fate.checkpoint)];
      if !fate.response || !fate.checkpoint {
        return false;
      }
      checkpoints.RecordSuccess(KeyOf(job, action), job.personId, externalId);
      ok := fate.ack;
    }

    method UpdatePersonOnce(job: Job, fate: Fate) returns (ok: bool)
      modifies this`ledger, checkpoints
      ensures (View(), ok) == EnsureUpdate(old(View()), job, fate)
    {
      if !fate.read {
        return false;
      }
      var done, _ := checkpoints.GetCompleted(KeyOf(job, UpdatePerson));
      ok := true;
      if !done {
        ok := Write(job, UpdatePerson, None, None, fate);
      }
    }

    method CreateNoteOnce(job: Job, fate: Fate) returns (noteId: Option<string>)
      modifies this`ledger, checkpoints
      ensures (View(), noteId) == EnsureNote(old(View()), job, fate)
    {
      noteId := None;
      if !fate.read {
        return;
      }
      var done, externalId := checkpoints.GetCompleted(KeyOf(job, CreateNote));
      if !done {
        var ok := Write(job, CreateNote, None, Some(fate.id), fate);
        if ok {
          noteId := Some(fate.id);
        }
      } else if externalId.Some? && externalId.value != "" {
        noteId := externalId;
      }
    }

    method LinkNoteOnce(job: Job, noteId: string, fate: Fate) returns (ok: bool)
      modifies this`ledger, checkpoints
      ensures (View(), ok) == EnsureLink(old(View()), job, noteId, fate)
    {
      if !fate.read {
        return false;
      }
      var done, _ := checkpoints.GetCompleted(KeyOf(job, LinkNote));
      ok := true;
      if !done {
        ok := Write(job, LinkNote, Some(noteId), Some(noteId), fate);
      }
    }

    method CreateOpportunityOnce(job: Job, fate: Fate) returns (ok: bool)
      modifies this`ledger, checkpoints
      ensures (View(), ok) == EnsureOpportunity(old(View()), job, fate)
    {
      if !fate.read {
        return false;
      }
      var done, _ := checkpoints.GetCompleted(KeyOf(job, CreateOpportunity));
      ok := true;
      if !done {
        ok := Write(job, CreateOpportunity, None, Some(fate.id), fate);
      }
    }

    /** Everything inside the try block. */
    method TryBody(job: Job, env: Env) returns (ok: bool)
      requires (job.tenantId, job.logId) in logs
      modifies this, checkpoints
      ensures (View(), ok) == Body(old(View()), job, env)
    {
      ok := false;
      if env.prepared.None? {
        return;
      }
      var p := env.prepared.value;
      var updated := UpdatePersonOnce(job, env.update);
      if !updated {
        return;
      }
      var noteId := CreateNoteOnce(job, env.note);
      if noteId.None? {
        return;
      }
      var linked := LinkNoteOnce(job, noteId.value, env.link);
      if !linked {
        return;
      }
      var opportunityCreated := false;
      if p.autoOpportunity && p.score >= p.threshold {
        opportunityCreated := CreateOpportunityOnce(job, env.opportunity);
        if !opportunityCreated {
          return;
        }
      }
      ok := RecordOutcome(job, p, opportunityCreated, env.late);
    }

    /** Score history, audit, and the log's success. */
    method RecordOutcome(job: Job, p: Prepared, opportunityCreated: bool, late: Late) returns (ok: bool)
      modifies this
      ensures (View(), ok) == Finish(old(View()), job, p, opportunityCreated, late)
    {
      if late == HistoryFails {
        return false;
      }
      var opportunityId := None;
      if opportunityCreated {
        var _, externalId := checkpoints.GetCompleted(KeyOf(job, CreateOpportunity));
        opportunityId := externalId;
      }
      history := history + [Score(job, p.score, opportunityCreated, opportunityId)];
      if late == AuditFails || late == StatusFails {
        return false;
      }
      var at := (job.tenantId, job.logId);
      if at in logs {
        logs := logs[at := logs[at].(status := Success)];
      }
      ok := late == LateFine;
    }

    method Process(job: Job, env: Env) returns (ok: bool)
      modifies this, checkpoints
      ensures (View(), ok) == EnrichSaga.Process(old(View()), job, env)
    {
      var at := (job.tenantId, job.logId);
      if at !in logs {
        return false;
      }
      logs := logs[at := Log(Processing, env.attempt)];
      ok := TryBody(job, env);
      if !ok && env.catchRuns && at in logs {
        logs := logs[at := logs[at].(status := Failed)];
      }
    }
  }
}
