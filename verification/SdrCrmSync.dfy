/**
 Writing a sent message to the CRM: a note, and its link to the person if there is one. The
 checkpoints are keyed by the message, and a sync may be started again at any time.
*/
module SdrCrmSync {
  import opened Wrappers
  import opened EnrichSaga
  import opened EnrichSagaProofs
  import EnrichService

  datatype CrmStatus = CrmNone | CrmPending | CrmCompleted | CrmFailed

  /** A message row as the sync sees it; `person` is "" when the sequence has no target person. */
  datatype MessageRow = MessageRow(sent: bool, person: string, crm: CrmStatus)

  datatype Sync = Sync(saga: Saga, messages: map<(string, string), MessageRow>)

  /**
   Called directly, an error is the caller's. Called by a send, a failing sync is caught and
   marked on the row; if that mark, its audit row or the closing read of the message fails, the
   send's own catch block writes FAILED over the row, if that write goes through.
  */
  datatype Caller = Direct | FromSend(marks: bool, closes: bool, outerWrite: bool)

  datatype SyncEnv = SyncEnv(note: Fate, link: Fate, statusWrite: bool, statusAck: bool, caller: Caller)

  /** Checkpoints carry the person, or a placeholder. */
  function JobOf(at: (string, string), person: string): Job
  {
    Job(at.0, if person != "" then person else "sdr-unknown-person", at.1)
  }

  function SetCrm(s: Sync, at: (string, string), crm: CrmStatus): Sync
    requires at in s.messages
  {
    s.(messages := s.messages[at := s.messages[at].(crm := crm)])
  }

  /** The note of the message: created once, then known by its checkpoint. The flag is false when the step threw. */
  function SyncNote(s: Saga, job: Job, fate: Fate): (Saga, bool, Option<string>)
  {
    var key := KeyOf(job, CreateNote);
    if !fate.read then (s, false, None)
    else if key in s.checkpoints then (s, true, s.checkpoints[key].externalId)
    else
      var (s1, ok) := Perform(s, job, CreateNote, None, Some(fate.id), fate);
      (s1, ok, Some(fate.id))
  }

  predicate Linkable(person: string, noteId: Option<string>)
  {
    person != "" && noteId.Some? && noteId.value != ""
  }

  /** Both writes; a person or a note id that is missing leaves the link out. */
  function SyncWrites(s: Saga, at: (string, string), person: string, env: SyncEnv): (Saga, bool)
  {
    var job := JobOf(at, person);
    var (s1, ok, noteId) := SyncNote(s, job, env.note);
    if !ok || !Linkable(person, noteId) then (s1, ok) else EnsureLink(s1, job, noteId.value, env.link)
  }

  /** syncCrmForMessage; the flag is false when it threw. */
  function SyncCore(s: Sync, at: (string, string), env: SyncEnv): (Sync, bool)
  {
    if at !in s.messages || !s.messages[at].sent then (s, false)
    else
      var (saga, ok) := SyncWrites(s.saga, at, s.messages[at].person, env);
      var s1 := s.(saga := saga);
      (if ok && env.statusWrite then SetCrm(s1, at, CrmCompleted) else s1, ok && env.statusWrite && env.statusAck)
  }

  /** What the send around a sync does with its outcome; the flag is false when the send threw. */
  function CloseSend(s: Sync, at: (string, string), fine: bool, c: Caller): (Sync, bool)
    requires at in s.messages && c.FromSend?
  {
    var s1 := if !fine && c.marks then SetCrm(s, at, CrmFailed) else s;
    var caught := c.closes && (fine || c.marks);
    (if !caught && c.outerWrite then s1.(messages := s1.messages[at := s1.messages[at].(sent := false, crm := CrmNone)]) else s1,
     caught)
  }

  /** The sync with whatever called it. */
  function SyncMessage(s: Sync, at: (string, string), env: SyncEnv): (Sync, bool)
  {
    var (s1, fine) := SyncCore(s, at, env);
    if at !in s1.messages || !s.messages[at].sent || env.caller.Direct? then (s1, fine) else CloseSend(s1, at, fine, env.caller)
  }

  /** Syncs of any messages in any order, started from an empty checkpoint table. */
  function RunSyncs(messages: map<(string, string), MessageRow>, calls: seq<((string, string), SyncEnv)>): Sync
  {
    if calls == [] then Sync(Saga(map[], [], map[], []), messages)
    else SyncMessage(RunSyncs(messages, calls[..|calls| - 1]), calls[|calls| - 1].0, calls[|calls| - 1].1).0
  }

  // ---------------------------------------------------------------- invariant

  /** A completed row has its note, and its link unless there was nothing to link. */
  predicate CompletedMeans(s: Sync, at: (string, string))
    requires at in s.messages
  {
    var note := Key(at.0, at.1, CreateNote);
    s.messages[at].crm == CrmCompleted ==>
      note in s.saga.checkpoints
      && (Linkable(s.messages[at].person, s.saga.checkpoints[note].externalId) ==> Key(at.0, at.1, LinkNote) in s.saga.checkpoints)
  }

  ghost predicate LedgerOk(s: Saga)
  {
    Conserved(s) && IdsStored(s) && forall e <- s.ledger :: LinksCheckpointedNote(s, e)
  }

  ghost predicate SyncInv(s: Sync)
  {
    LedgerOk(s.saga) && forall at | at in s.messages :: CompletedMeans(s, at)
  }

  /** Completed checkpoints stay as they are. */
  predicate Remembers(a: Saga, b: Saga)
  {
    forall key | key in a.checkpoints :: key in b.checkpoints && b.checkpoints[key] == a.checkpoints[key]
  }

  lemma PerformKeepsLedger(s: Saga, job: Job, action: WriteAction, target: Option<string>, ext: Option<string>, fate: Fate)
    requires LedgerOk(s) && Faithful(s, job, action, target, ext, fate)
    ensures LedgerOk(Perform(s, job, action, target, ext, fate).0)
    ensures Remembers(s, Perform(s, job, action, target, ext, fate).0)
  {
    PerformConserves(s, job, action, target, ext, fate);
    PerformKeepsIds(s, job, action, target, ext, fate);
  }

  lemma SyncNoteKeeps(s: Saga, job: Job, fate: Fate)
    requires LedgerOk(s)
    ensures var (s1, ok, noteId) := SyncNote(s, job, fate);
      && LedgerOk(s1) && Remembers(s, s1)
      && (ok ==> KeyOf(job, CreateNote) in s1.checkpoints && s1.checkpoints[KeyOf(job, CreateNote)].externalId == noteId)
  {
    if fate.read && KeyOf(job, CreateNote) !in s.checkpoints {
      PerformKeepsLedger(s, job, CreateNote, None, Some(fate.id), fate);
    }
  }

  lemma SyncLinkKeeps(s: Saga, job: Job, noteId: string, fate: Fate)
    requires LedgerOk(s) && KeyOf(job, CreateNote) in s.checkpoints
    requires s.checkpoints[KeyOf(job, CreateNote)].externalId == Some(noteId)
    ensures var (s1, ok) := EnsureLink(s, job, noteId, fate);
      LedgerOk(s1) && Remembers(s, s1) && (ok ==> KeyOf(job, LinkNote) in s1.checkpoints)
  {
    if fate.read && KeyOf(job, LinkNote) !in s.checkpoints {
      PerformKeepsLedger(s, job, LinkNote, Some(noteId), Some(noteId), fate);
    }
  }

  lemma SyncWritesKeep(s: Saga, at: (string, string), person: string, env: SyncEnv)
    requires LedgerOk(s)
    ensures var (s1, ok) := SyncWrites(s, at, person, env);
      var note := Key(at.0, at.1, CreateNote);
      && LedgerOk(s1) && Remembers(s, s1)
      && (ok ==> note in s1.checkpoints)
      && (ok && Linkable(person, s1.checkpoints[note].externalId) ==> Key(at.0, at.1, LinkNote) in s1.checkpoints)
  {
    hide LedgerOk, SyncNote, EnsureLink;
    var job := JobOf(at, person);
    SyncNoteKeeps(s, job, env.note);
    var (s1, ok, noteId) := SyncNote(s, job, env.note);
    if ok && Linkable(person, noteId) { SyncLinkKeeps(s1, job, noteId.value, env.link); }
  }

  lemma SyncKeeps(s: Sync, at: (string, string), env: SyncEnv)
    requires SyncInv(s)
    ensures SyncInv(SyncMessage(s, at, env).0)
  {
    hide LedgerOk, SyncWrites;
    if at in s.messages && s.messages[at].sent {
      var saga := SyncWrites(s.saga, at, s.messages[at].person, env).0;
      SyncWritesKeep(s.saga, at, s.messages[at].person, env);
      var s1 := SyncMessage(s, at, env).0;
      forall other | other in s1.messages ensures CompletedMeans(s1, other) {
        assert CompletedMeans(s, other);
      }
    }
  }

  lemma {:induction false} RunSyncsKeep(messages: map<(string, string), MessageRow>, calls: seq<((string, string), SyncEnv)>)
    requires forall at | at in messages :: messages[at].crm != CrmCompleted
    ensures SyncInv(RunSyncs(messages, calls))
  {
    if calls == [] {
    } else {
      RunSyncsKeep(messages, calls[..|calls| - 1]);
      SyncKeeps(RunSyncs(messages, calls[..|calls| - 1]), calls[|calls| - 1].0, calls[|calls| - 1].1);
    }
  }

  // ----------------------------------------------------------------- theorems

  /** Over any syncs with any faults: effects are conserved, links hit the checkpointed note, COMPLETED rows are written. */
  lemma SyncsConserve(messages: map<(string, string), MessageRow>, calls: seq<((string, string), SyncEnv)>)
    requires forall at | at in messages :: messages[at].crm != CrmCompleted
    ensures var s := RunSyncs(messages, calls);
      && (forall key :: Count(s.saga.ledger, key)
            == Uncommitted(s.saga.ledger, key) + (if key in s.saga.checkpoints then 1 else 0))
      && (forall e <- s.saga.ledger :: LinksCheckpointedNote(s.saga, e))
      && (forall at | at in s.messages :: CompletedMeans(s, at))
  {
    RunSyncsKeep(messages, calls);
  }

  /**
   A sync undoes a send exactly when it was called by that send, something after it failed (its
   failure mark, the audit row or the closing read) and the send's catch block wrote its FAILED.
  */
  lemma SyncUndoesTheSendExactlyWhen(s: Sync, at: (string, string), env: SyncEnv, other: (string, string))
    requires other in s.messages && s.messages[other].sent
    ensures other in SyncMessage(s, at, env).0.messages
    ensures !SyncMessage(s, at, env).0.messages[other].sent <==>
      other == at && env.caller.FromSend? && env.caller.outerWrite
      && (!env.caller.closes || (!env.caller.marks && !SyncCore(s, at, env).1))
  {
    CoreKeepsRows(s, at, env);
    hide SyncCore;
  }

  /** The sync itself writes no row's status. */
  lemma CoreKeepsRows(s: Sync, at: (string, string), env: SyncEnv)
    ensures var s1 := SyncCore(s, at, env).0;
      s1.messages.Keys == s.messages.Keys && forall other | other in s.messages :: s1.messages[other].sent == s.messages[other].sent
  {
    hide SyncWrites;
  }

  predicate CleanFate(fate: Fate)
  {
    fate.read && fate.effect && fate.response && fate.checkpoint && fate.ack
  }

  /** The effects a sync still owes: the note unless checkpointed, the link unless checkpointed or not linkable. */
  function OwedSync(s: Saga, at: (string, string), person: string, env: SyncEnv): seq<Effect>
  {
    var note, link := Key(at.0, at.1, CreateNote), Key(at.0, at.1, LinkNote);
    var noteId := if note in s.checkpoints then s.checkpoints[note].externalId else Some(env.note.id);
    (if note in s.checkpoints then [] else [Effect(note, env.note.id, None, true)])
      + (if !Linkable(person, noteId) || link in s.checkpoints then [] else [Effect(link, env.link.id, noteId, true)])
  }

  /** A fault-free sync, from any state, performs exactly what is owed and completes the row. */
  lemma CleanSyncCompletes(s: Sync, at: (string, string), env: SyncEnv)
    requires at in s.messages && s.messages[at].sent
    requires CleanFate(env.note) && CleanFate(env.link) && env.statusWrite && env.statusAck
    requires env.caller.FromSend? ==> env.caller.closes
    ensures var (s1, ok) := SyncMessage(s, at, env);
      && ok
      && s1.saga.ledger == s.saga.ledger + OwedSync(s.saga, at, s.messages[at].person, env)
      && at in s1.messages && s1.messages[at].crm == CrmCompleted
  {
    var person := s.messages[at].person;
    var (s1, _, noteId) := SyncNote(s.saga, JobOf(at, person), env.note);
    assert Key(at.0, at.1, LinkNote) in s1.checkpoints <==> Key(at.0, at.1, LinkNote) in s.saga.checkpoints;
  }

  /** A checkpointed write gets through: done before, or carried out, answered, recorded and acknowledged now. */
  predicate GetsThrough(s: Saga, key: Key, fate: Fate)
  {
    fate.read && (key in s.checkpoints || (fate.effect && fate.response && fate.checkpoint && fate.ack))
  }

  /** The note, and for a message with a person and a note id also the link. */
  predicate WritesGetThrough(s: Saga, at: (string, string), person: string, env: SyncEnv)
  {
    var note, link := Key(at.0, at.1, CreateNote), Key(at.0, at.1, LinkNote);
    var noteId := if note in s.checkpoints then s.checkpoints[note].externalId else Some(env.note.id);
    && GetsThrough(s, note, env.note)
    && (person != "" && noteId.Some? && noteId.value != "" ==> GetsThrough(s, link, env.link))
  }

  lemma WritesExactlyWhen(s: Saga, at: (string, string), person: string, env: SyncEnv)
    ensures SyncWrites(s, at, person, env).1 <==> WritesGetThrough(s, at, person, env)
  {
    var note := Key(at.0, at.1, CreateNote);
    var (s1, ok, noteId) := SyncNote(s, JobOf(at, person), env.note);
    assert Key(at.0, at.1, LinkNote) in s1.checkpoints <==> Key(at.0, at.1, LinkNote) in s.checkpoints;
    assert ok <==> GetsThrough(s, note, env.note);
    assert ok ==> noteId == if note in s.checkpoints then s.checkpoints[note].externalId else Some(env.note.id);
  }

  /** The sync of a sent message returns, and completes its row, exactly when what it owes gets through and the row is written. */
  lemma SyncedExactlyWhen(s: Sync, at: (string, string), env: SyncEnv)
    requires at in s.messages && s.messages[at].sent
    ensures var (s1, fine) := SyncCore(s, at, env); var through := WritesGetThrough(s.saga, at, s.messages[at].person, env);
      && (fine <==> through && env.statusWrite && env.statusAck)
      && s1.messages == (if through && env.statusWrite then s.messages[at := s.messages[at].(crm := CrmCompleted)] else s.messages)
  {
    WritesExactlyWhen(s.saga, at, s.messages[at].person, env);
    hide SyncWrites, WritesGetThrough;
  }

  /** A message that is not there, or not sent, is never synced. */
  lemma UnsentIsNotSynced(s: Sync, at: (string, string), env: SyncEnv)
    requires at !in s.messages || !s.messages[at].sent
    ensures SyncMessage(s, at, env) == (s, false)
  {}

  /** What a failed sync leaves on the row of its send: FAILED by its own mark, or what the send's catch block writes. */
  lemma FailedSyncMarks(s: Sync, at: (string, string), env: SyncEnv)
    requires at in s.messages && s.messages[at].sent && env.caller.FromSend? && !SyncCore(s, at, env).1
    ensures var (s1, ok) := SyncMessage(s, at, env);
      && at in s1.messages
      && (ok <==> env.caller.marks && env.caller.closes)
      && (ok ==> s1.messages[at].sent && s1.messages[at].crm == CrmFailed)
      && (!ok && env.caller.outerWrite ==> !s1.messages[at].sent && s1.messages[at].crm == CrmNone)
      && (!ok && !env.caller.outerWrite ==> s1.messages[at].sent && (env.caller.marks ==> s1.messages[at].crm == CrmFailed))
  {
    CoreKeepsRows(s, at, env);
    hide SyncCore;
  }

  /** New checkpoints name the message's person, or a placeholder where it has none. */
  lemma SyncNamesPerson(s: Saga, at: (string, string), person: string, env: SyncEnv)
    ensures var s1 := SyncWrites(s, at, person, env).0;
      forall key <- s1.checkpoints | key !in s.checkpoints ::
        s1.checkpoints[key].personId == if person == "" then "sdr-unknown-person" else person
  {}

  // ------------------------------------------------------------------- method

  /** The service shares checkpoint table and CRM client with the enrich-and-score processor. */
  class SdrCrmSyncService {
    const processor: EnrichService.EnrichAndScoreProcessor
    var messages: map<(string, string), MessageRow>

    ghost function View(): Sync
      reads this, processor, processor.checkpoints
    {
      Sync(processor.View(), messages)
    }

    constructor (processor: EnrichService.EnrichAndScoreProcessor, messages: map<(string, string), MessageRow>)
      ensures this.processor == processor && this.messages == messages
    {
      this.processor, this.messages := processor, messages;
    }

    method EnsureMessageNote(job: Job, fate: Fate) returns (ok: bool, noteId: Option<string>)
      modifies processor`ledger, processor.checkpoints
      ensures (processor.View(), ok, noteId) == SyncNote(old(processor.View()), job, fate)
    {
      if !fate.read {
        return false, None;
      }
      var done, externalId := processor.checkpoints.GetCompleted(KeyOf(job, CreateNote));
      ok, noteId := true, externalId;
      if !done {
        ok := processor.Write(job, CreateNote, None, Some(fate.id), fate);
        noteId := Some(fate.id);
      }
    }

    method SyncCrmForMessage(at: (string, string), env: SyncEnv) returns (ok: bool)
      modifies this, processor`ledger, processor.checkpoints
      ensures (View(), ok) == SyncCore(old(View()), at, env)
    {
      if at !in messages || !messages[at].sent {
        return false;
      }
      var person := messages[at].person;
      var job := JobOf(at, person);
      var noteId;
      ok, noteId := EnsureMessageNote(job, env.note);
      if ok && person != "" && noteId.Some? && noteId.value != "" {
        ok := processor.LinkNoteOnce(job, noteId.value, env.link);
      }
      if ok && env.statusWrite {
        messages := messages[at := messages[at].(crm := CrmCompleted)];
      }
      ok := ok && env.statusWrite && env.statusAck;
    }

    /** The tail of executeSend: the inner catch marks a failed sync, the outer one fails the message. */
    method SyncAfterSend(at: (string, string), env: SyncEnv) returns (ok: bool)
      requires at in messages && messages[at].sent && env.caller.FromSend?
      modifies this, processor`ledger, processor.checkpoints
      ensures (View(), ok) == SyncMessage(old(View()), at, env)
    {
      CoreKeepsRows(View(), at, env);
      var fine := SyncCrmForMessage(at, env);
      if !fine && env.caller.marks {
        messages := messages[at := messages[at].(crm := CrmFailed)];
      }
      ok := env.caller.closes && (fine || env.caller.marks);
      if !ok && env.caller.outerWrite {
        messages := messages[at := messages[at].(sent := false, crm := CrmNone)];
      }
    }
  }
}
