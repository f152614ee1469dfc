/**
 The enrich-and-score job: four CRM writes, each skipped once its checkpoint is completed, run
 again and again by retries that may fail anywhere. The CRM itself is a ledger of real effects.
*/
module EnrichSaga {
  import opened Wrappers

  datatype WriteAction = UpdatePerson | CreateNote | LinkNote | CreateOpportunity

  datatype Key = Key(tenantId: string, logId: string, action: WriteAction)

  /** A row of the checkpoint table; only completed rows are ever written. */
  datatype Checkpoint = Checkpoint(personId: string, externalId: Option<string>)

  /** One effect the CRM really carried out, and whether its checkpoint was committed. */
  datatype Effect = Effect(key: Key, id: string, target: Option<string>, committed: bool)

  datatype LogStatus = Pending | Processing | Success | Failed

  datatype Log = Log(status: LogStatus, attempts: nat)

  datatype Score = Score(job: Job, score: int, opportunityCreated: bool, opportunityId: Option<string>)

  datatype Saga = Saga(
    checkpoints: map<Key, Checkpoint>, ledger: seq<Effect>, logs: map<(string, string), Log>, history: seq<Score>)

  datatype Job = Job(tenantId: string, personId: string, logId: string)

  /**
   How one step ends: whether its checkpoint can be read, the effect happens, its response
   arrives, the checkpoint commits and the commit is acknowledged. `id` is what the CRM calls
   the new record.
  */
  datatype Fate = Fate(read: bool, effect: bool, response: bool, checkpoint: bool, ack: bool, id: string)

  datatype Late = LateFine | HistoryFails | AuditFails | StatusFails | StatusUnacknowledged

  /** What tenant, person, enrichment and scoring answered; a retry may see other values. */
  datatype Prepared = Prepared(autoOpportunity: bool, threshold: int, score: int)

  datatype Env = Env(
    attempt: nat, prepared: Option<Prepared>, update: Fate, note: Fate, link: Fate, opportunity: Fate, late: Late,
    catchRuns: bool)

  datatype Attempt = Attempt(job: Job, env: Env)

  function KeyOf(job: Job, action: WriteAction): Key
  {
    Key(job.tenantId, job.logId, action)
  }

  function SetLog(s: Saga, job: Job, status: LogStatus): Saga
  {
    var at := (job.tenantId, job.logId);
    if at in s.logs then s.(logs := s.logs[at := s.logs[at].(status := status)]) else s
  }

  /** One CRM write followed by its checkpoint; true when both were acknowledged. */
  function Perform(s: Saga, job: Job, action: WriteAction, target: Option<string>, ext: Option<string>, fate: Fate)
    : (Saga, bool)
  {
    var key := KeyOf(job, action);
    if !fate.effect then (s, false)
    else if !fate.response || !fate.checkpoint then (s.(ledger := s.ledger + [Effect(key, fate.id, target, false)]), false)
    else
      (s.(ledger := s.ledger + [Effect(key, fate.id, target, true)],
          checkpoints := s.checkpoints[key := Checkpoint(job.personId, ext)]), fate.ack)
  }

  function EnsureUpdate(s: Saga, job: Job, fate: Fate): (Saga, bool)
  {
    if !fate.read then (s, false)
    else if KeyOf(job, UpdatePerson) in s.checkpoints then (s, true)
    else Perform(s, job, UpdatePerson, None, None, fate)
  }

  /** The note id to link; None when the step threw, also on a completed checkpoint without an id. */
  function EnsureNote(s: Saga, job: Job, fate: Fate): (Saga, Option<string>)
  {
    var key := KeyOf(job, CreateNote);
    if !fate.read then (s, None)
    else if key in s.checkpoints then
      var ext := s.checkpoints[key].externalId;
      (s, if ext == Some("") then None else ext)
    else
      var (s1, ok) := Perform(s, job, CreateNote, None, Some(fate.id), fate);
      (s1, if ok then Some(fate.id) else None)
  }

  function EnsureLink(s: Saga, job: Job, noteId: string, fate: Fate): (Saga, bool)
  {
    if !fate.read then (s, false)
    else if KeyOf(job, LinkNote) in s.checkpoints then (s, true)
    else Perform(s, job, LinkNote, Some(noteId), Some(noteId), fate)
  }

  function EnsureOpportunity(s: Saga, job: Job, fate: Fate): (Saga, bool)
  {
    if !fate.read then (s, false)
    else if KeyOf(job, CreateOpportunity) in s.checkpoints then (s, true)
    else Perform(s, job, CreateOpportunity, None, Some(fate.id), fate)
  }

  /** The four CRM writes; None when one of them threw, else whether there is an opportunity to report. */
  function Writes(s: Saga, job: Job, p: Prepared, env: Env): (Saga, Option<bool>)
  {
    var (s1, updated) := EnsureUpdate(s, job, env.update);
    if !updated then (s1, None)
    else
      var (s2, noteId) := EnsureNote(s1, job, env.note);
      if noteId.None? then (s2, None)
      else
        var (s3, linked) := EnsureLink(s2, job, noteId.value, env.link);
        if !linked then (s3, None)
        else if !WantsOpportunity(p) then (s3, Some(false))
        else
          var (s4, created) := EnsureOpportunity(s3, job, env.opportunity);
          (s4, if created then Some(true) else None)
  }

  predicate WantsOpportunity(p: Prepared)
  {
    p.autoOpportunity && p.score >= p.threshold
  }

  /** Score history, audit and the success status; false when one of them threw. */
  function Finish(s: Saga, job: Job, p: Prepared, opportunity: bool, late: Late): (Saga, bool)
  {
    var key := KeyOf(job, CreateOpportunity);
    var id := if opportunity && key in s.checkpoints then s.checkpoints[key].externalId else None;
    var s1 := s.(history := s.history + [Score(job, p.score, opportunity, id)]);
    match late
    case HistoryFails => (s, false)
    case AuditFails => (s1, false)
    case StatusFails => (s1, false)
    case StatusUnacknowledged => (SetLog(s1, job, Success), false)
    case LateFine => (SetLog(s1, job, Success), true)
  }

  function Body(s: Saga, job: Job, env: Env): (Saga, bool)
  {
    if env.prepared.None? then (s, false)
    else
      var (s1, opportunity) := Writes(s, job, env.prepared.value, env);
      if opportunity.None? then (s1, false)
      else Finish(s1, job, env.prepared.value, opportunity.value, env.late)
  }

  /** One attempt of the job; true when it returned, false when it threw. */
  function Process(s: Saga, job: Job, env: Env): (Saga, bool)
  {
    var at := (job.tenantId, job.logId);
    if at !in s.logs then (s, false)
    else
      var (s1, ok) := Body(s.(logs := s.logs[at := Log(Processing, env.attempt)]), job, env);
      if ok || !env.catchRuns then (s1, ok) else (SetLog(s1, job, Failed), false)
  }

  /** Logs are received as PENDING; attempts of all jobs follow one another in any order. */
  function Run(logs: map<(string, string), Log>, attempts: seq<Attempt>): Saga
  {
    if attempts == [] then Saga(map[], [], logs, [])
    else
      var last := attempts[|attempts| - 1];
      Process(Run(logs, attempts[..|attempts| - 1]), last.job, last.env).0
  }

  predicate Fresh(logs: map<(string, string), Log>)
  {
    forall at | at in logs :: logs[at].status != Success
  }

  ghost predicate Reachable(s: Saga)
  {
    exists logs, attempts :: Fresh(logs) && s == Run(logs, attempts)
  }
}
