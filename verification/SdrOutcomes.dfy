/**
 What each service call does, said on statuses and rows alone: exactly when it goes through,
 and what the tables and the provider hold afterwards.
*/
module SdrOutcomes {
  import opened Wrappers
  import opened OutboundProvider
  import opened SdrModel
  import opened SdrRows
  import opened SdrCalls
  import opened SdrCoherence
  import opened SdrTheorems
  import Threads = SdrThreads
  import Safety = SdrThreadSafety
  import ThreadTheorems = SdrThreadTheorems
  import Refinement = SdrRefinement

  /** Still under way: no reply, pause, cancellation, failure or completion. */
  predicate Running(db: Db, q: nat)
  {
    q < |db.sequences| && db.sequences[q].status in {SeqDrafting, SeqAwaiting, SeqApproved, SeqActive}
  }

  /** The stop set is the other five statuses. */
  lemma RunningExactlyWhen(db: Db, q: nat)
    ensures Running(db, q) <==> q < |db.sequences| && !Stopped(db.sequences[q].status)
  {
    if q < |db.sequences| {
      var status := db.sequences[q].status;
      assert status.SeqDrafting? || status.SeqAwaiting? || status.SeqApproved? || status.SeqActive? || status.SeqPaused?
        || status.SeqReplied? || status.SeqCompleted? || status.SeqCancelled? || status.SeqFailed?;
    }
  }

  /** Only the status of one sequence may have moved. */
  predicate OnlySequence(a: Db, b: Db, q: nat, status: SequenceStatus)
  {
    && |b.sequences| == |a.sequences|
    && (forall p | 0 <= p < |a.sequences| && p != q :: b.sequences[p] == a.sequences[p])
    && (q < |a.sequences| ==> b.sequences[q] == Sequence(status, a.sequences[q].targetEmail))
  }

  function StatusOf(db: Db, q: nat): SequenceStatus
  {
    if q < |db.sequences| then db.sequences[q].status else SeqDrafting
  }

  // ------------------------------------------------------------ createSequence

  lemma SequenceMadeExactlyWhen(db: Db, email: Option<string>, candidateOk: bool, researchOk: bool)
    ensures var (db', outcome) := CreateSequence(db, email, candidateOk, researchOk, None);
      && (outcome == Done <==> !db.agentPaused && candidateOk && researchOk)
      && db' == (if outcome == Done then db.(sequences := db.sequences + [Sequence(SeqDrafting, email)]) else db)
  {}

  // --------------------------------------------------------------- createDraft

  predicate Draftable(db: Db, q: nat, purpose: Purpose)
  {
    Running(db, q) || (q < |db.sequences| && db.sequences[q].status == SeqReplied && purpose != Outreach)
  }

  /** A draft is made exactly for a running sequence, or for a replied one unless it is an outreach, with all answers good. */
  lemma DraftMadeExactlyWhen(db: Db, q: nat, purpose: Purpose, env: DraftEnv)
    ensures CreateDraft(db, q, purpose, env).1 == Done
      <==> !db.agentPaused && Draftable(db, q, purpose) && env.researchOk && (purpose == Meeting ==> env.proposeOk) && env.text.Some?
    ensures CreateDraft(db, q, purpose, env).1 != Idempotent
  {
    hide InsertNextDraft;
  }

  /** The newest row after a made draft is the text as given, waiting for approval, one version above all others. */
  ghost predicate NewDraft(a: Db, b: Db, q: nat, purpose: Purpose, text: (string, string))
  {
    var n := |a.drafts|;
    && |b.drafts| == n + 1
    && b.drafts[n].sequenceId == q && b.drafts[n].purpose == purpose && b.drafts[n].status == DraftAwaiting
    && b.drafts[n].channel == "email" && b.drafts[n].subject == Some(text.0) && b.drafts[n].body == text.1
    && b.drafts[n].contentHash == HashDraftContent("email", purpose, Some(text.0), text.1)
    && forall d | 0 <= d < n && a.drafts[d].sequenceId == q :: a.drafts[d].version < b.drafts[n].version
  }

  /** Of the older drafts exactly the open ones of the same sequence and purpose are superseded. */
  ghost predicate OlderSuperseded(a: Db, b: Db, q: nat, purpose: Purpose)
  {
    |a.drafts| <= |b.drafts| && forall d | 0 <= d < |a.drafts| ::
      b.drafts[d] == a.drafts[d].(status :=
        if a.drafts[d].sequenceId == q && a.drafts[d].purpose == purpose
           && a.drafts[d].status in {DraftNew, DraftAwaiting, DraftApproved}
        then DraftSuperseded else a.drafts[d].status)
  }

  lemma DraftMade(db: Db, q: nat, purpose: Purpose, env: DraftEnv)
    requires CreateDraft(db, q, purpose, env).1 == Done
    ensures var db' := CreateDraft(db, q, purpose, env).0;
      && NewDraft(db, db', q, purpose, env.text.value)
      && OlderSuperseded(db, db', q, purpose)
      && OnlySequence(db, db', q, if Running(db, q) then SeqAwaiting else SeqReplied)
      && db'.bookings == (if purpose == Meeting then db.bookings + [Booking(q, Proposed)] else db.bookings)
      && db'.messages == db.messages && db'.replies == db.replies
  {
    var db1 := if purpose == Meeting then InsertBooking(db, q) else db;
    NextDraftMade(db1, q, purpose, env.text.value);
    hide InsertNextDraft;
  }

  lemma NextDraftMade(db: Db, q: nat, purpose: Purpose, text: (string, string))
    requires q < |db.sequences|
    ensures var db' := InsertNextDraft(db, q, purpose, text);
      && NewDraft(db, db', q, purpose, text)
      && OlderSuperseded(db, db', q, purpose)
      && OnlySequence(db, db', q, if Running(db, q) then SeqAwaiting else StatusOf(db, q))
      && db'.bookings == db.bookings && db'.messages == db.messages && db'.replies == db.replies
      && db'.agentPaused == db.agentPaused
  {
    var db1 := SupersedePrior(db, q, purpose);
    var version := MaxVersion(db1.drafts, q) + 1;
    var db2 := InsertDraft(db1, q, version, purpose, text);
    hide MaxVersion, SupersedePrior, MoveSequence, OnlySequence, InsertDraft, NewDraft, OlderSuperseded;
    PriorSuperseded(db, q, purpose);
    NewestIsNew(db1.drafts, q);
    DraftInserted(db, db1, q, purpose, text, version);
    MoveMeans(db2, q, SeqAwaiting);
    SameDrafts(db, db2, MoveSequence(db2, q, SeqAwaiting), q, purpose, text);
    SameSequences(db, db2, MoveSequence(db2, q, SeqAwaiting), q, if Running(db, q) then SeqAwaiting else StatusOf(db, q));
  }

  lemma NewestIsNew(drafts: seq<Draft>, q: nat)
    ensures forall d | 0 <= d < |drafts| && drafts[d].sequenceId == q :: drafts[d].version < MaxVersion(drafts, q) + 1
  {}

  lemma PriorSuperseded(db: Db, q: nat, purpose: Purpose)
    ensures var db1 := SupersedePrior(db, q, purpose);
      OlderSuperseded(db, db1, q, purpose) && |db1.drafts| == |db.drafts|
      && db1 == db.(drafts := db1.drafts, approvals := db1.approvals)
  {}

  lemma DraftInserted(db: Db, db1: Db, q: nat, purpose: Purpose, text: (string, string), version: nat)
    requires OlderSuperseded(db, db1, q, purpose) && |db1.drafts| == |db.drafts|
    requires forall d | 0 <= d < |db1.drafts| && db1.drafts[d].sequenceId == q :: db1.drafts[d].version < version
    ensures var db2 := InsertDraft(db1, q, version, purpose, text);
      NewDraft(db, db2, q, purpose, text) && OlderSuperseded(db, db2, q, purpose) && db2 == db1.(drafts := db2.drafts)
  {
    hide HashDraftContent;
    forall d | 0 <= d < |db.drafts| && db.drafts[d].sequenceId == q ensures db.drafts[d].version < version {
      assert db1.drafts[d].version == db.drafts[d].version && db1.drafts[d].sequenceId == q;
    }
  }

  lemma SameDrafts(a: Db, b: Db, c: Db, q: nat, purpose: Purpose, text: (string, string))
    requires NewDraft(a, b, q, purpose, text) && OlderSuperseded(a, b, q, purpose) && c.drafts == b.drafts
    ensures NewDraft(a, c, q, purpose, text) && OlderSuperseded(a, c, q, purpose)
  {}

  /** A guarded move takes a running sequence to the status, and leaves any other where it is. */
  lemma MoveMeans(db: Db, q: nat, status: SequenceStatus)
    ensures OnlySequence(db, MoveSequence(db, q, status), q, if Running(db, q) then status else StatusOf(db, q))
    ensures MoveSequence(db, q, status) == db.(sequences := MoveSequence(db, q, status).sequences)
  {}

  lemma SameSequences(a: Db, b: Db, c: Db, q: nat, status: SequenceStatus)
    requires a.sequences == b.sequences && OnlySequence(b, c, q, status)
    ensures OnlySequence(a, c, q, status)
  {}

  /** A refused draft leaves everything as it was, but for the proposal of a meeting whose text was rejected. */
  lemma DraftRefused(db: Db, q: nat, purpose: Purpose, env: DraftEnv)
    requires CreateDraft(db, q, purpose, env).1 != Done
    ensures var db' := CreateDraft(db, q, purpose, env).0;
      db' == db || (purpose == Meeting && env.text.None? && db' == db.(bookings := db.bookings + [Booking(q, Proposed)]))
  {
    hide InsertNextDraft;
  }

  // ------------------------------------------------------------ human decisions

  /** Approving goes through exactly for an open draft, and leaves it APPROVED and a running sequence APPROVED. */
  lemma ApprovedExactlyWhen(s: Sdr, d: nat)
    requires Reachable(s)
    ensures var (db', outcome) := ApproveDraft(s.db, d);
      && (outcome == Done <==> d < |s.db.drafts| && s.db.drafts[d].status in {DraftNew, DraftAwaiting, DraftApproved})
      && (outcome != Done ==> db' == s.db)
      && (outcome == Done ==>
            && db'.drafts == s.db.drafts[d := s.db.drafts[d].(status := DraftApproved)]
            && OnlySequence(s.db, db', s.db.drafts[d].sequenceId,
                            if Running(s.db, s.db.drafts[d].sequenceId) then SeqApproved else StatusOf(s.db, s.db.drafts[d].sequenceId))
            && HasActive(db', d) && db'.messages == s.db.messages)
  {
    MismatchUnreachable(s, d, SendEnv(Success, true, true));
    if ApproveDraft(s.db, d).1 == Done {
      var db2, q := SetDraft(InsertApproval(s.db, d, s.db.drafts[d]), d, DraftApproved), s.db.drafts[d].sequenceId;
      ActiveAfterInsert(s.db, d, s.db.drafts[d], d);
      assert HasActive(db2, d);
      MoveMeans(db2, q, SeqApproved);
      hide MoveSequence, OnlySequence, Reachable;
      SameSequences(s.db, db2, MoveSequence(db2, q, SeqApproved), q, if Running(s.db, q) then SeqApproved else StatusOf(s.db, q));
    }
  }

  /** Revoking goes through exactly while an approval is ACTIVE; the draft waits again and none is left. */
  lemma RevokedExactlyWhen(db: Db, d: nat)
    requires d < |db.drafts|
    ensures var (db', outcome) := RevokeApproval(db, d);
      && (outcome == Done <==> exists a | 0 <= a < |db.approvals| :: db.approvals[a].draftId == d && db.approvals[a].active)
      && (outcome != Done ==> db' == db)
      && (outcome == Done ==> db'.drafts == db.drafts[d := db.drafts[d].(status := DraftAwaiting)] && OnlyWithdrawn(db, db', d))
  {}

  /** The approvals of the draft are inactive, everybody else's as they were, and no other table moved. */
  ghost predicate OnlyWithdrawn(a: Db, b: Db, d: nat)
  {
    && b == a.(drafts := b.drafts, approvals := b.approvals)
    && |b.approvals| == |a.approvals|
    && forall i | 0 <= i < |a.approvals| ::
         b.approvals[i] == if a.approvals[i].draftId == d then a.approvals[i].(active := false) else a.approvals[i]
  }

  /** Rejecting goes through exactly for an open draft, and is idempotent on a rejected one. */
  lemma RejectedExactlyWhen(db: Db, d: nat)
    requires d < |db.drafts|
    ensures var (db', outcome) := RejectDraft(db, d);
      && (outcome == Done <==> db.drafts[d].status in {DraftNew, DraftAwaiting, DraftApproved})
      && (outcome == Idempotent <==> db.drafts[d].status == DraftRejected)
      && (outcome != Done ==> db' == db)
      && (outcome == Done ==> db'.drafts == db.drafts[d := db.drafts[d].(status := DraftRejected)] && OnlyWithdrawn(db, db', d))
  {}

  // ----------------------------------------------------------------- the sends

  /** Some delivery of the draft was accepted before. */
  ghost predicate Delivered(mail: Mailer, d: nat)
  {
    exists i :: 0 <= i < |mail.delivered| && mail.delivered[i].draftId == d
  }

  ghost predicate Sends(s: Sdr, d: nat, env: SendEnv)
  {
    |ExecuteSend(s, d, env).0.mail.sendCalls| == |s.mail.sendCalls| + 1
  }

  /** Of the tables alone: what a send needs besides the candidate check. */
  ghost predicate Sendable(db: Db, mail: Mailer, d: nat)
  {
    && !db.agentPaused
    && d < |db.drafts| && db.drafts[d].status == DraftApproved
    && Running(db, db.drafts[d].sequenceId)
    && db.sequences[db.drafts[d].sequenceId].targetEmail !in {None, Some("")}
    && !Delivered(mail, d)
  }

  /** A reachable state is that of a reachable world, so what every interleaving keeps holds of it. */
  lemma ReachableIsSafe(s: Sdr)
    requires Reachable(s)
    ensures RowsOk(s.db) && Safety.MailOk(s.db, s.mail)
  {
    var tenantId, calls :| s == Run(Initial(tenantId), calls);
    Refinement.CallsAreARun(tenantId, calls);
    var steps :| Refinement.SdrOf(Threads.TakeAll(Threads.Start(tenantId), steps)) == s;
    ThreadTheorems.ReachableIsSafe(Threads.TakeAll(Threads.Start(tenantId), steps));
  }

  /** The provider knows a draft's key exactly when it accepted a delivery of the draft. */
  lemma KnownKeyExactlyWhen(s: Sdr, d: nat)
    requires RowsOk(s.db) && Safety.MailOk(s.db, s.mail) && d < |s.db.drafts|
    ensures KeyOf(s.db.tenantId, d, s.db.drafts[d]) in s.mail.sentByKey <==> Delivered(s.mail, d)
  {
    var key := KeyOf(s.db.tenantId, d, s.db.drafts[d]);
    if key in s.mail.sentByKey {
      var i :| 0 <= i < |s.mail.delivered| && s.mail.delivered[i].key == key;
      assert Safety.CallOk(s.db, s.mail.delivered[i]);
    }
    if Delivered(s.mail, d) {
      var i :| 0 <= i < |s.mail.delivered| && s.mail.delivered[i].draftId == d;
      assert Safety.CallOk(s.db, s.mail.delivered[i]);
    }
  }

  /** A draft whose message or own row says SENT was delivered. */
  lemma SentIsDelivered(s: Sdr, d: nat)
    requires Reachable(s) && d < |s.db.drafts| && (s.db.drafts[d].status == DraftSent || HasSentMessage(s.db, d))
    ensures Delivered(s.mail, d)
  {
    ReachableInv(s);
    ReachableIsSafe(s);
    assert SentBacked(s.db, d);
    var m :| 0 <= m < |s.db.messages| && s.db.messages[m].draftId == d && s.db.messages[m].status == MsgSent;
    assert MessageRecorded(s.mail, s.db.messages[m]) && MessageOk(s.db.tenantId, s.db.drafts, s.db.messages[m]);
    KnownKeyExactlyWhen(s, d);
  }

  /** The gate on statuses alone. */
  lemma GateExactlyWhen(s: Sdr, d: nat, candidateOk: bool)
    requires Reachable(s)
    ensures AssertSendAllowed(s.db, d, candidateOk).Ok? <==>
      && candidateOk && d < |s.db.drafts| && s.db.drafts[d].status in {DraftApproved, DraftSent}
      && Running(s.db, s.db.drafts[d].sequenceId)
      && s.db.sequences[s.db.drafts[d].sequenceId].targetEmail !in {None, Some("")}
  {
    ReachableInv(s);
    GateNeverMismatches(s.db, d, candidateOk);
    hide AssertSendAllowed;
    if d < |s.db.drafts| {
      ApprovalTracksStatus(s, d);
      ActiveIsFound(s.db, d);
    }
    hide Inv, Reachable, HasActive;
    GateOpens(s.db, d, candidateOk);
  }

  lemma ActiveIsFound(db: Db, d: nat)
    ensures HasActive(db, d) <==> FindActive(db.approvals, d).Some?
  {}

  lemma GateOpens(db: Db, d: nat, candidateOk: bool)
    requires AssertSendAllowed(db, d, candidateOk) !in {Err(HashMismatch), Err(ApprovalMismatch)}
    ensures AssertSendAllowed(db, d, candidateOk).Ok? <==>
      && candidateOk && d < |db.drafts| && db.drafts[d].status !in {DraftSuperseded, DraftRejected}
      && FindActive(db.approvals, d).Some?
      && Running(db, db.drafts[d].sequenceId)
      && db.sequences[db.drafts[d].sequenceId].targetEmail !in {None, Some("")}
  {
    if d < |db.drafts| { RunningExactlyWhen(db, db.drafts[d].sequenceId); }
    hide FindActive, LiveHash;
  }

  /**
   In every reachable state a send calls the provider exactly when the agent is not paused, the
   draft is APPROVED, its sequence is running and has an address, the candidate is ready, and no
   delivery of the draft was accepted before.
  */
  lemma SendsExactlyWhen(s: Sdr, d: nat, env: SendEnv)
    requires Reachable(s)
    ensures Sends(s, d, env) <==> Sendable(s.db, s.mail, d) && env.candidateOk
    ensures !Sends(s, d, env) ==> ExecuteSend(s, d, env).0.mail == s.mail
  {
    GateExactlyWhen(s, d, env.candidateOk);
    ReachableIsSafe(s);
    ReachableInv(s);
    hide Inv;
    if !s.db.agentPaused && AssertSendAllowed(s.db, d, env.candidateOk).Ok? {
      if s.db.drafts[d].status == DraftSent || HasSentMessage(s.db, d) { SentIsDelivered(s, d); }
      KnownKeyExactlyWhen(s, d);
      GatedSend(s, d, env);
      hide ExecuteSend, Delivered, HasSentMessage;
    } else {
      hide AssertSendAllowed, Delivered, HasSentMessage;
    }
  }

  lemma GatedSend(s: Sdr, d: nat, env: SendEnv)
    requires Inv(s) && !s.db.agentPaused && AssertSendAllowed(s.db, d, env.candidateOk).Ok?
    ensures var known := KeyOf(s.db.tenantId, d, s.db.drafts[d]) in s.mail.sentByKey;
      (known || HasSentMessage(s.db, d) ==> ExecuteSend(s, d, env).0.mail == s.mail)
      && (!known && !HasSentMessage(s.db, d) ==> Sends(s, d, env))
  {
    var key := KeyOf(s.db.tenantId, d, s.db.drafts[d]);
    var found := FindMessage(s.db.messages, key);
    SentIsFound(s, d);
    hide Inv, AssertSendAllowed, FindMessage, HasSentMessage;
    var gate := AssertSendAllowed(s.db, d, env.candidateOk).value;
    var db1 := InsertMessage(s.db, s.db.drafts[d].sequenceId, d, gate, key);
    if found.Some? {
      DeliverCalls(s, d, found.value, env);
    } else {
      DeliverCalls(s.(db := db1), d, |s.db.messages|, env);
    }
    hide Deliver;
  }

  lemma SentIsFound(s: Sdr, d: nat)
    requires Inv(s) && d < |s.db.drafts|
    ensures var found := FindMessage(s.db.messages, KeyOf(s.db.tenantId, d, s.db.drafts[d]));
      HasSentMessage(s.db, d) <==> found.Some? && s.db.messages[found.value].status == MsgSent
  {
    var found := FindMessage(s.db.messages, KeyOf(s.db.tenantId, d, s.db.drafts[d]));
    if found.Some? { assert MessageOk(s.db.tenantId, s.db.drafts, s.db.messages[found.value]); }
    if HasSentMessage(s.db, d) {
      var m :| 0 <= m < |s.db.messages| && s.db.messages[m].draftId == d && s.db.messages[m].status == MsgSent;
      assert MessageOk(s.db.tenantId, s.db.drafts, s.db.messages[m]);
      OneRowPerDraft(s, m, found.value);
    }
  }

  lemma DeliverCalls(s: Sdr, d: nat, m: nat, env: SendEnv)
    requires d < |s.db.drafts| && s.db.drafts[d].sequenceId < |s.db.sequences| && m < |s.db.messages|
    ensures Deliver(s, d, m, env).0.mail.sendCalls
      == if KeyOf(s.db.tenantId, d, s.db.drafts[d]) in s.mail.sentByKey then s.mail.sendCalls
         else s.mail.sendCalls + [SendInputOf(s.db, d, env.fixture)]
    ensures KeyOf(s.db.tenantId, d, s.db.drafts[d]) in s.mail.sentByKey ==> Deliver(s, d, m, env).0.mail == s.mail
  {}

  // ------------------------------------------------- what a send leaves behind

  /** The message row of the draft, wherever it is. */
  ghost predicate HasMessage(db: Db, d: nat, status: MessageStatus, id: Option<ProviderMessageId>, crm: CrmSync)
  {
    exists m | 0 <= m < |db.messages| :: db.messages[m].draftId == d && db.messages[m].status == status
      && db.messages[m].providerMessageId == id && db.messages[m].crmSync == crm
  }

  /** An accepted send: the draft's own text to its sequence's address, everything SENT, the sequence ACTIVE. */
  lemma AcceptedSend(s: Sdr, d: nat, env: SendEnv)
    requires Reachable(s) && Sendable(s.db, s.mail, d) && env.candidateOk && env.fixture == Success
    ensures var (s', outcome) := ExecuteSend(s, d, env);
      && outcome == Done
      && SentAsWritten(s, s', d)
      && s'.db.drafts == s.db.drafts[d := s.db.drafts[d].(status := DraftSent)]
      && s'.db.approvals == s.db.approvals
      && OnlySequence(s.db, s'.db, s.db.drafts[d].sequenceId, SeqActive)
      && HasMessage(s'.db, d, MsgSent, Some(DetMsg(KeyOf(s.db.tenantId, d, s.db.drafts[d]))),
                    if env.crmOk then SyncCompleted else SyncFailed)
  {
    var key := KeyOf(s.db.tenantId, d, s.db.drafts[d]);
    SendReaches(s, d, env);
    var gate := AssertSendAllowed(s.db, d, env.candidateOk).value;
    var found := FindMessage(s.db.messages, key);
    var db1 := InsertMessage(s.db, s.db.drafts[d].sequenceId, d, gate, key);
    ReachableInv(s);
    if found.Some? { assert MessageOk(s.db.tenantId, s.db.drafts, s.db.messages[found.value]); }
    hide Inv, Reachable, Sendable, AssertSendAllowed, FindMessage;
    if found.Some? {
      AcceptedDelivery(s, d, found.value, env);
    } else {
      AcceptedDelivery(s.(db := db1), d, |s.db.messages|, env);
      hide Deliver;
      SameSequences(s.db, db1, ExecuteSend(s, d, env).0.db, s.db.drafts[d].sequenceId, SeqActive);
    }
  }

  /** One call and one delivery more, both with subject, body and address as the rows have them. */
  ghost predicate SentAsWritten(s: Sdr, s': Sdr, d: nat)
    requires d < |s.db.drafts|
  {
    var n, m, draft := |s.mail.sendCalls|, |s.mail.delivered|, s.db.drafts[d];
    && |s'.mail.sendCalls| == n + 1 && s.mail.sendCalls <= s'.mail.sendCalls
    && |s'.mail.delivered| == m + 1 && s.mail.delivered <= s'.mail.delivered
    && s'.mail.delivered[m] == s'.mail.sendCalls[n]
    && s'.mail.sendCalls[n].draftId == d
    && SameText(draft, s'.mail.sendCalls[n].subject, s'.mail.sendCalls[n].body)
    && Addressed(s.db, draft, s'.mail.sendCalls[n].toEmail)
  }

  /** A sendable draft gets past the gate to an unsent message row, under a key the provider does not know. */
  lemma SendReaches(s: Sdr, d: nat, env: SendEnv)
    requires Reachable(s) && Sendable(s.db, s.mail, d) && env.candidateOk
    ensures AssertSendAllowed(s.db, d, env.candidateOk).Ok?
    ensures var found := FindMessage(s.db.messages, KeyOf(s.db.tenantId, d, s.db.drafts[d]));
      found.Some? ==> s.db.messages[found.value].status != MsgSent
    ensures KeyOf(s.db.tenantId, d, s.db.drafts[d]) !in s.mail.sentByKey
  {
    GateExactlyWhen(s, d, env.candidateOk);
    ReachableIsSafe(s);
    ReachableInv(s);
    KnownKeyExactlyWhen(s, d);
    SentIsFound(s, d);
    if HasSentMessage(s.db, d) { SentIsDelivered(s, d); }
    hide Inv, AssertSendAllowed, HasSentMessage, Delivered, FindMessage;
  }

  lemma AcceptedDelivery(s: Sdr, d: nat, m: nat, env: SendEnv)
    requires d < |s.db.drafts| && Running(s.db, s.db.drafts[d].sequenceId) && m < |s.db.messages|
    requires s.db.sequences[s.db.drafts[d].sequenceId].targetEmail !in {None, Some("")}
    requires s.db.messages[m].draftId == d && env.fixture == Success
    requires KeyOf(s.db.tenantId, d, s.db.drafts[d]) !in s.mail.sentByKey
    ensures var (s', outcome) := Deliver(s, d, m, env);
      && outcome == Done
      && SentAsWritten(s, s', d)
      && s'.db.drafts == s.db.drafts[d := s.db.drafts[d].(status := DraftSent)]
      && s'.db.approvals == s.db.approvals
      && OnlySequence(s.db, s'.db, s.db.drafts[d].sequenceId, SeqActive)
      && HasMessage(s'.db, d, MsgSent, Some(DetMsg(KeyOf(s.db.tenantId, d, s.db.drafts[d]))),
                    if env.crmOk then SyncCompleted else SyncFailed)
  {
    var (s', _) := Deliver(s, d, m, env);
    var crm := if env.crmOk then SyncCompleted else SyncFailed;
    var id := DetMsg(KeyOf(s.db.tenantId, d, s.db.drafts[d]));
    var db1 := SetMessage(s.db, m, s.db.messages[m].(status := MsgSent, providerMessageId := Some(id), crmSync := crm));
    var db2 := SetDraft(db1, d, DraftSent);
    MoveMeans(db2, s.db.drafts[d].sequenceId, SeqActive);
    RunningExactlyWhen(s.db, s.db.drafts[d].sequenceId);
    assert s'.db == MoveSequence(db2, s.db.drafts[d].sequenceId, SeqActive);
    hide MoveSequence;
    assert s'.db.messages[m].draftId == d;
  }

  /** A refused delivery: the call was made, the message row is FAILED, draft, approvals and sequence are as they were. */
  lemma RefusedSend(s: Sdr, d: nat, env: SendEnv)
    requires Reachable(s) && Sendable(s.db, s.mail, d) && env.candidateOk && env.fixture != Success
    ensures var (s', outcome) := ExecuteSend(s, d, env);
      && outcome == Refused(ProviderFailed)
      && s'.mail.delivered == s.mail.delivered && |s'.mail.sendCalls| == |s.mail.sendCalls| + 1
      && s'.db == s.db.(messages := s'.db.messages)
      && exists m | 0 <= m < |s'.db.messages| :: s'.db.messages[m].draftId == d && s'.db.messages[m].status == MsgFailed
  {
    var key := KeyOf(s.db.tenantId, d, s.db.drafts[d]);
    SendReaches(s, d, env);
    var found := FindMessage(s.db.messages, key);
    ReachableInv(s);
    if found.Some? { assert MessageOk(s.db.tenantId, s.db.drafts, s.db.messages[found.value]); }
    hide Inv, Reachable, Sendable, AssertSendAllowed, FindMessage;
    var m := if found.Some? then found.value else |s.db.messages|;
    assert ExecuteSend(s, d, env).0.db.messages[m].status == MsgFailed;
  }

  // ------------------------------------------------- the row a first send makes

  /** The newest ACTIVE approval of the draft is the one that counts. */
  predicate NewestActive(approvals: seq<Approval>, d: nat, a: nat)
  {
    && a < |approvals| && approvals[a].draftId == d && approvals[a].active
    && forall k | a < k < |approvals| :: approvals[k].draftId != d || !approvals[k].active
  }

  lemma {:induction false} FindsNewestActive(approvals: seq<Approval>, d: nat)
    requires FindActive(approvals, d).Some?
    ensures NewestActive(approvals, d, FindActive(approvals, d).value)
  {
    var n := |approvals| - 1;
    if approvals[n].draftId != d || !approvals[n].active {
      FindsNewestActive(approvals[..n], d);
    }
  }

  lemma NewestIsFound(approvals: seq<Approval>, d: nat, a: nat)
    requires NewestActive(approvals, d, a)
    ensures FindActive(approvals, d) == Some(a)
  {
    FindsNewestActive(approvals, d);
    var b := FindActive(approvals, d).value;
    hide FindActive;
    assert !(a < b) && !(b < a);
  }

  /** The row's version and hash are the draft's, and the hash is that of the text the draft holds now. */
  predicate Matches(approval: Approval, draft: Draft)
  {
    && approval.draftVersion == draft.version && approval.contentHash == draft.contentHash
    && draft.contentHash == HashDraftContent(draft.channel, draft.purpose, draft.subject, draft.body)
  }

  /** On any tables, reachable or not: the gate opens only to a draft whose newest ACTIVE approval names its version and its text as it is. */
  lemma GateOnAnyTables(db: Db, d: nat, candidateOk: bool)
    ensures AssertSendAllowed(db, d, candidateOk).Ok? <==>
      && candidateOk && d < |db.drafts| && db.drafts[d].status !in {DraftSuperseded, DraftRejected}
      && Running(db, db.drafts[d].sequenceId)
      && db.sequences[db.drafts[d].sequenceId].targetEmail !in {None, Some("")}
      && exists a: nat :: NewestActive(db.approvals, d, a) && Matches(db.approvals[a], db.drafts[d])
  {
    if d < |db.drafts| {
      RunningExactlyWhen(db, db.drafts[d].sequenceId);
      if FindActive(db.approvals, d).Some? { FindsNewestActive(db.approvals, d); }
      forall a: nat | NewestActive(db.approvals, d, a) ensures FindActive(db.approvals, d) == Some(a) {
        NewestIsFound(db.approvals, d, a);
      }
    }
    hide FindActive, NewestActive, HashDraftContent;
  }

  /** On any tables approving needs the stored hash to be that of the text. */
  lemma ApprovesOnAnyTables(db: Db, d: nat)
    ensures ApproveDraft(db, d).1 == Done <==>
      && d < |db.drafts| && db.drafts[d].status in {DraftNew, DraftAwaiting, DraftApproved}
      && db.drafts[d].contentHash
           == HashDraftContent(db.drafts[d].channel, db.drafts[d].purpose, db.drafts[d].subject, db.drafts[d].body)
  {
    hide HashDraftContent;
  }

  /** The first send of a draft makes one message row, for the draft and its sequence, that names the newest ACTIVE approval. */
  lemma FirstMessageNamesApproval(s: Sdr, d: nat, env: SendEnv)
    requires Reachable(s) && Sendable(s.db, s.mail, d) && env.candidateOk
    requires forall m | 0 <= m < |s.db.messages| :: s.db.messages[m].draftId != d
    ensures var db' := ExecuteSend(s, d, env).0.db; var n := |s.db.messages|;
      && |db'.messages| == n + 1 && db'.messages[..n] == s.db.messages
      && db'.messages[n].draftId == d && db'.messages[n].sequenceId == s.db.drafts[d].sequenceId
      && NewestActive(s.db.approvals, d, db'.messages[n].approvalId)
  {
    var key := KeyOf(s.db.tenantId, d, s.db.drafts[d]);
    SendReaches(s, d, env);
    var gate := AssertSendAllowed(s.db, d, env.candidateOk).value;
    GateNamesNewest(s.db, d, env.candidateOk);
    ReachableInv(s);
    var found := FindMessage(s.db.messages, key);
    FoundIsOwn(s, d);
    assert found.None?;
    hide Inv, Reachable, Sendable, AssertSendAllowed, FindMessage, NewestActive;
    var db1 := InsertMessage(s.db, s.db.drafts[d].sequenceId, d, gate, key);
    DeliverKeepsRow(s.(db := db1), d, |s.db.messages|, env);
    hide Deliver;
  }

  lemma FoundIsOwn(s: Sdr, d: nat)
    requires Inv(s) && d < |s.db.drafts|
    ensures var found := FindMessage(s.db.messages, KeyOf(s.db.tenantId, d, s.db.drafts[d]));
      found.Some? ==> s.db.messages[found.value].draftId == d
  {
    var found := FindMessage(s.db.messages, KeyOf(s.db.tenantId, d, s.db.drafts[d]));
    if found.Some? { FoundRowIsTheDrafts(s, d, found.value); }
  }

  lemma GateNamesNewest(db: Db, d: nat, candidateOk: bool)
    requires AssertSendAllowed(db, d, candidateOk).Ok?
    ensures NewestActive(db.approvals, d, AssertSendAllowed(db, d, candidateOk).value)
  {
    FindsNewestActive(db.approvals, d);
    hide NewestActive, FindActive;
  }

  /** A delivery writes status, provider id and CRM mark of its own row only. */
  lemma DeliverKeepsRow(s: Sdr, d: nat, m: nat, env: SendEnv)
    requires d < |s.db.drafts| && s.db.drafts[d].sequenceId < |s.db.sequences| && m < |s.db.messages|
    ensures var messages := Deliver(s, d, m, env).0.db.messages;
      && |messages| == |s.db.messages|
      && (forall k | 0 <= k < |messages| && k != m :: messages[k] == s.db.messages[k])
      && messages[m] == s.db.messages[m].(status := messages[m].status, providerMessageId := messages[m].providerMessageId,
                                          crmSync := messages[m].crmSync)
  {
    hide SendEmail, SendInputOf;
  }

  /** Until the provider was called the row says QUEUED; a crash there leaves it so. */
  lemma CreatedRowIsQueued(db: Db, c: Threads.SendCtx, ans: Threads.Answer)
    requires FindMessage(db.messages, KeyOf(db.tenantId, c.d, c.draft)).None?
    ensures Threads.Write(db, Threads.SendCreateMessage(c), ans)
      == db.(messages := db.messages
             + [Message(c.draft.sequenceId, c.d, c.approval, KeyOf(db.tenantId, c.d, c.draft), MsgQueued, None, SyncNone)])
  {}

  /** The pause is set by its own call only. */
  lemma OnlySetPausedPauses(s: Sdr, c: Call)
    ensures Apply(s, c).0.db.agentPaused == if c.CallSetPaused? then c.paused else s.db.agentPaused
  {
    hide InsertNextDraft, Correlate, AssertSendAllowed, Deliver, FindMessage, FindBooking, HasActive;
    match c
    case CallSend(d, env) => SendPausesNothing(s, d, env);
    case CallCreateSequence(email, candidateOk, researchOk, draft) =>
      if draft.Some? { PauseStays(s.db.(sequences := s.db.sequences + [Sequence(SeqDrafting, email)]), |s.db.sequences|, Outreach, draft.value); }
    case CallCreateDraft(q, purpose, env) => PauseStays(s.db, q, purpose, env);
    case CallReply(e, r, m) => ReplyPausesNothing(s.db, e, r, m);
    case _ =>
  }

  lemma ReplyPausesNothing(db: Db, e: ReplyEvent, r: DraftEnv, m: DraftEnv)
    ensures IngestReply(db, e, r, m).0.agentPaused == db.agentPaused
  {
    hide CreateDraft, Correlate;
    if !SeenReply(db.replies, e.providerEventId) && Correlate(db, e).Ok? {
      var (q, k) := Correlate(db, e).value;
      var db1 := SetSequence(InsertReply(db, q, k, e.providerEventId, e.classification), q, ReplyStatus(e.classification));
      PauseStays(db1, q, Reply, r);
      PauseStays(CreateDraft(db1, q, Reply, r).0, q, Meeting, m);
    }
  }

  lemma SendPausesNothing(s: Sdr, d: nat, env: SendEnv)
    ensures ExecuteSend(s, d, env).0.db.agentPaused == s.db.agentPaused
  {
    hide AssertSendAllowed, FindMessage, SendEmail, SendInputOf;
  }

  // ------------------------------------------------------------ from end to end

  /** A draft decided against is never sent, over every run of calls. */
  lemma {:induction false} FinalIsNeverSent(s: Sdr, calls: seq<Call>, d: nat)
    requires Reachable(s) && d < |s.db.drafts| && s.db.drafts[d].status in {DraftRejected, DraftSuperseded}
    ensures var s' := Run(s, calls);
      && Reachable(s') && d < |s'.db.drafts| && s'.db.drafts[d].status == s.db.drafts[d].status
      && s.mail.sendCalls <= s'.mail.sendCalls
      && forall i | |s.mail.sendCalls| <= i < |s'.mail.sendCalls| :: s'.mail.sendCalls[i].draftId != d
  {
    FinalDraftsStay(s, calls, d);
    if calls == [] {
    } else {
      var n := |calls| - 1;
      var s1 := Run(s, calls[..n]);
      FinalIsNeverSent(s, calls[..n], d);
      ReachableThen(s1, calls[n]);
      if calls[n].CallSend? {
        SendCalls(s1, calls[n].d, calls[n].sendEnv);
        GateExactlyWhen(s1, calls[n].d, calls[n].sendEnv.candidateOk);
      } else {
        OthersNeverCall(s1, calls[n]);
      }
      hide Reachable, ExecuteSend, AssertSendAllowed;
    }
  }

  /** What came of one address and one text: delivered as written, draft SENT, sequence ACTIVE. */
  ghost predicate WentOut(s: Sdr, s': Sdr, q: nat, d: nat, email: string, text: (string, string))
  {
    var n := |s.mail.delivered|;
    && |s'.mail.delivered| == n + 1 && s.mail.delivered <= s'.mail.delivered
    && s'.mail.delivered[n].draftId == d && s'.mail.delivered[n].toEmail == email
    && s'.mail.delivered[n].subject == text.0 && s'.mail.delivered[n].body == text.1
    && q < |s'.db.sequences| && s'.db.sequences[q] == Sequence(SeqActive, Some(email))
    && d < |s'.db.drafts| && s'.db.drafts[d].status == DraftSent
  }

  /**
   From any reachable state with the agent active: a sequence created with a first draft, the
   draft approved and sent, ends with that text delivered to that address.
  */
  lemma CreatedApprovedSent(s: Sdr, email: string, text: (string, string), crmOk: bool)
    requires Reachable(s) && !s.db.agentPaused && email != ""
    ensures var q, d := |s.db.sequences|, |s.db.drafts|;
      var s1 := Apply(s, CallCreateSequence(Some(email), true, true, Some(DraftEnv(true, true, Some(text))))).0;
      var s2 := Apply(s1, CallApprove(d)).0;
      WentOut(s, Apply(s2, CallSend(d, SendEnv(Success, true, crmOk))).0, q, d, email, text)
  {
    var q, d, env := |s.db.sequences|, |s.db.drafts|, SendEnv(Success, true, crmOk);
    var create := CallCreateSequence(Some(email), true, true, Some(DraftEnv(true, true, Some(text))));
    var s1 := Apply(s, create).0;
    ReachableThen(s, create);
    FirstDraft(s, email, text);
    var s2 := Apply(s1, CallApprove(d)).0;
    ReachableThen(s1, CallApprove(d));
    NewIsUndelivered(s);
    assert Apply(s2, CallSend(d, env)) == ExecuteSend(s2, d, env);
    hide Reachable, Apply, Delivered, HasMessage, ExecuteSend, HashDraftContent;
    FirstApproved(s1, d, q, email, text);
    FirstSent(s2, d, q, email, text, env);
    assert s2.mail == s.mail;
  }

  lemma FirstSent(s: Sdr, d: nat, q: nat, email: string, text: (string, string), env: SendEnv)
    requires Reachable(s) && !s.db.agentPaused && d < |s.db.drafts| && q < |s.db.sequences| && !Delivered(s.mail, d)
    requires s.db.drafts[d].status == DraftApproved && s.db.drafts[d].sequenceId == q
    requires s.db.drafts[d].subject == Some(text.0) && s.db.drafts[d].body == text.1
    requires s.db.sequences[q] == Sequence(SeqApproved, Some(email)) && email != ""
    requires env.candidateOk && env.fixture == Success
    ensures WentOut(s, ExecuteSend(s, d, env).0, q, d, email, text)
  {
    hide Reachable, Delivered, HasMessage, ExecuteSend;
    AcceptedSend(s, d, env);
  }

  lemma FirstApproved(s: Sdr, d: nat, q: nat, email: string, text: (string, string))
    requires Reachable(s) && !s.db.agentPaused && d < |s.db.drafts| && q < |s.db.sequences|
    requires s.db.drafts[d].status == DraftAwaiting && s.db.drafts[d].sequenceId == q
    requires s.db.sequences[q] == Sequence(SeqAwaiting, Some(email))
    ensures var s2 := Apply(s, CallApprove(d)).0;
      && s2.mail == s.mail && !s2.db.agentPaused
      && s2.db.drafts == s.db.drafts[d := s.db.drafts[d].(status := DraftApproved)]
      && q < |s2.db.sequences| && s2.db.sequences[q] == Sequence(SeqApproved, Some(email))
  {
    ApprovedExactlyWhen(s, d);
    ApprovePausesNothing(s.db, d);
    hide Reachable, ApproveDraft, HasActive;
  }

  lemma FirstDraft(s: Sdr, email: string, text: (string, string))
    requires !s.db.agentPaused
    ensures var q := |s.db.sequences|;
      var s1 := Apply(s, CallCreateSequence(Some(email), true, true, Some(DraftEnv(true, true, Some(text))))).0;
      && s1.mail == s.mail && !s1.db.agentPaused
      && NewDraft(s.db, s1.db, q, Outreach, text)
      && |s1.db.sequences| == q + 1 && s1.db.sequences[q] == Sequence(SeqAwaiting, Some(email))
  {
    var db1, q := s.db.(sequences := s.db.sequences + [Sequence(SeqDrafting, Some(email))]), |s.db.sequences|;
    DraftMadeExactlyWhen(db1, q, Outreach, DraftEnv(true, true, Some(text)));
    DraftMade(db1, q, Outreach, DraftEnv(true, true, Some(text)));
    PauseStays(db1, q, Outreach, DraftEnv(true, true, Some(text)));
    hide CreateDraft;
  }

  lemma PauseStays(db: Db, q: nat, purpose: Purpose, env: DraftEnv)
    ensures CreateDraft(db, q, purpose, env).0.agentPaused == db.agentPaused
  {}

  lemma ApprovePausesNothing(db: Db, d: nat)
    ensures ApproveDraft(db, d).0.agentPaused == db.agentPaused
  {}

  lemma NewIsUndelivered(s: Sdr)
    requires Reachable(s)
    ensures !Delivered(s.mail, |s.db.drafts|)
  {
    ReachableIsSafe(s);
    forall i | 0 <= i < |s.mail.delivered| ensures s.mail.delivered[i].draftId != |s.db.drafts| {
      assert Safety.CallOk(s.db, s.mail.delivered[i]);
    }
  }
}
