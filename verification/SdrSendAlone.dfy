/** executeSend, statement after statement: the ends of its thread are the results of the call. */
module SdrSendAlone {
  import opened Wrappers
  import opened OutboundProvider
  import opened SdrModel
  import opened SdrThreads
  import opened SdrSolo
  import Calls = SdrCalls

  function CtxOf(db: Db, d: nat, fixture: Fixture, a: nat): SendCtx
    requires d < |db.drafts| && db.drafts[d].sequenceId < |db.sequences|
  {
    SendCtx(d, fixture, db.drafts[d], OrEmpty(db.sequences[db.drafts[d].sequenceId].targetEmail), a)
  }

  /** The reads of the gate, up to the candidate check. */
  lemma GateReads(db: Db, mail: Mailer, d: nat, fixture: Fixture)
    ensures var gate := Calls.AssertSendAllowed(db, d, true);
      SameEnds(Solo(db, mail, SendPaused(d, fixture)),
               Solo(db, mail, if !db.agentPaused && gate.Ok? then SendReadCandidate(CtxOf(db, d, fixture, gate.value)) else Finished))
  {
    hide SameEnds, CtxOf;
    var s0 := Solo(db, mail, SendPaused(d, fixture));
    DraftReads(db, mail, d, fixture);
    hide StepAlone;
    if !db.agentPaused && d < |db.drafts| {
      var draft := db.drafts[d];
      var s2 := Solo(db, mail, SendReadSequence(d, fixture, draft));
      var next := AfterSequence(db, d, fixture, draft);
      SequenceReads(db, mail, d, fixture, draft);
      SameThen(s0, s2, Solo(db, mail, next));
      if next.SendReadApproval? {
        ApprovalReads(db, mail, d, fixture, draft, next.email);
        SameThen(s0, Solo(db, mail, next), Solo(db, mail, AfterApproval(db, d, fixture, draft, next.email)));
      }
      GateMeans(db, d, fixture);
    }
  }

  lemma GateMeans(db: Db, d: nat, fixture: Fixture)
    requires !db.agentPaused && d < |db.drafts|
    ensures var gate := Calls.AssertSendAllowed(db, d, true);
      var next := AfterSequence(db, d, fixture, db.drafts[d]);
      (if gate.Ok? then SendReadCandidate(CtxOf(db, d, fixture, gate.value)) else Finished)
        == if next.SendReadApproval? then AfterApproval(db, d, fixture, db.drafts[d], next.email) else next
  {
    hide FindActive, LiveHash, OrEmpty;
  }

  lemma DraftReads(db: Db, mail: Mailer, d: nat, fixture: Fixture)
    ensures SameEnds(Solo(db, mail, SendPaused(d, fixture)),
      Solo(db, mail, if db.agentPaused || d >= |db.drafts| then Finished else SendReadSequence(d, fixture, db.drafts[d])))
  {
    hide SameEnds;
    var s0, s1 := Solo(db, mail, SendPaused(d, fixture)), Solo(db, mail, SendReadDraft(d, fixture));
    if db.agentPaused {
      Only(s0, Solo(db, mail, Finished));
    } else {
      Only(s0, s1);
      Hop(s0, s1, Solo(db, mail, if d >= |db.drafts| then Finished else SendReadSequence(d, fixture, db.drafts[d])));
    }
  }

  /** Where the read of the sequence leads. */
  function AfterSequence(db: Db, d: nat, fixture: Fixture, draft: Draft): Thread
  {
    if draft.sequenceId >= |db.sequences| || Stopped(db.sequences[draft.sequenceId].status)
      || draft.status in {DraftSuperseded, DraftRejected} || OrEmpty(db.sequences[draft.sequenceId].targetEmail) == ""
    then Finished
    else SendReadApproval(d, fixture, draft, OrEmpty(db.sequences[draft.sequenceId].targetEmail))
  }

  lemma SequenceReads(db: Db, mail: Mailer, d: nat, fixture: Fixture, draft: Draft)
    ensures SameEnds(Solo(db, mail, SendReadSequence(d, fixture, draft)),
                     Solo(db, mail, AfterSequence(db, d, fixture, draft)))
  {
    hide SameEnds;
    Only(Solo(db, mail, SendReadSequence(d, fixture, draft)), Solo(db, mail, AfterSequence(db, d, fixture, draft)));
  }

  /** Where the read of the newest ACTIVE approval leads. */
  function AfterApproval(db: Db, d: nat, fixture: Fixture, draft: Draft, email: string): Thread
  {
    var a := FindActive(db.approvals, d);
    if a.None? || db.approvals[a.value].contentHash != draft.contentHash
      || db.approvals[a.value].draftVersion != draft.version || LiveHash(draft) != db.approvals[a.value].contentHash
    then Finished
    else SendReadCandidate(SendCtx(d, fixture, draft, email, a.value))
  }

  lemma ApprovalReads(db: Db, mail: Mailer, d: nat, fixture: Fixture, draft: Draft, email: string)
    ensures SameEnds(Solo(db, mail, SendReadApproval(d, fixture, draft, email)),
                     Solo(db, mail, AfterApproval(db, d, fixture, draft, email)))
  {
    hide SameEnds;
    Only(Solo(db, mail, SendReadApproval(d, fixture, draft, email)),
         Solo(db, mail, AfterApproval(db, d, fixture, draft, email)));
  }

  /** Where the gate leads, given whether the candidate is ready. */
  function PastGate(db: Db, mail: Mailer, d: nat, fixture: Fixture, candidateOk: bool): Solo
  {
    var gate := Calls.AssertSendAllowed(db, d, candidateOk);
    Solo(db, mail, if !db.agentPaused && gate.Ok? then SendFindMessage(CtxOf(db, d, fixture, gate.value)) else Finished)
  }

  lemma GateEnds(db: Db, mail: Mailer, d: nat, fixture: Fixture, e: Solo)
    ensures Ends(Solo(db, mail, SendPaused(d, fixture)), e)
      <==> Ends(PastGate(db, mail, d, fixture, true), e) || Ends(PastGate(db, mail, d, fixture, false), e)
  {
    GateReads(db, mail, d, fixture);
    var gate := Calls.AssertSendAllowed(db, d, true);
    hide Ends;
    if !db.agentPaused && gate.Ok? {
      CandidateSplits(db, mail, CtxOf(db, d, fixture, gate.value), e);
    }
  }

  lemma CandidateSplits(db: Db, mail: Mailer, c: SendCtx, e: Solo)
    ensures Ends(Solo(db, mail, SendReadCandidate(c)), e)
      <==> Ends(Solo(db, mail, SendFindMessage(c)), e) || Ends(Solo(db, mail, Finished), e)
  {
    hide Ends;
    var no := Answer(false, true, true, true, true, None);
    Splits(Solo(db, mail, SendReadCandidate(c)), Solo(db, mail, SendFindMessage(c)), YES, Solo(db, mail, Finished), no, e);
  }

  function CrmMark(crmOk: bool): CrmSync
  {
    if crmOk then SyncCompleted else SyncFailed
  }

  /** After the SENT mark of the draft: the sequence's move, then the CRM mark, whichever it is. */
  lemma SyncEnds(db: Db, mail: Mailer, c: SendCtx, m: nat, e: Solo)
    requires c.d < |db.drafts| && m < |db.messages| && db.messages[m].status == MsgSent
    ensures Ends(Solo(db, mail, SendDraft(c, m)), e) <==> e == Synced(db, mail, c, m, true) || e == Synced(db, mail, c, m, false)
  {
    SyncMoves(db, mail, c, m);
    var db3 := MoveSequence(SetDraft(db, c.d, DraftSent), c.draft.sequenceId, SeqActive);
    SyncSplits(db3, mail, m, e);
    hide Ends;
    forall crmOk ensures Synced(db, mail, c, m, crmOk) == Marked(db3, mail, m, crmOk) {}
    FinishedEnds(Synced(db, mail, c, m, true), e);
    FinishedEnds(Synced(db, mail, c, m, false), e);
  }

  function Synced(db: Db, mail: Mailer, c: SendCtx, m: nat, crmOk: bool): Solo
    requires c.d < |db.drafts| && m < |db.messages|
  {
    var db1 := SetMessage(db, m, db.messages[m].(crmSync := CrmMark(crmOk)));
    Solo(MoveSequence(SetDraft(db1, c.d, DraftSent), c.draft.sequenceId, SeqActive), mail, Finished)
  }

  function Marked(db: Db, mail: Mailer, m: nat, crmOk: bool): Solo
    requires m < |db.messages|
  {
    Solo(SetMessage(db, m, db.messages[m].(crmSync := CrmMark(crmOk))), mail, Finished)
  }

  lemma SyncMoves(db: Db, mail: Mailer, c: SendCtx, m: nat)
    requires c.d < |db.drafts|
    ensures SameEnds(Solo(db, mail, SendDraft(c, m)),
                     Solo(MoveSequence(SetDraft(db, c.d, DraftSent), c.draft.sequenceId, SeqActive), mail, SendSync(m)))
  {
    hide SameEnds;
    var s1 := Solo(db, mail, SendDraft(c, m));
    var db2 := SetDraft(db, c.d, DraftSent);
    var s2 := Solo(db2, mail, SendActivate(c, m));
    Only(s1, s2);
    Hop(s1, s2, Solo(MoveSequence(db2, c.draft.sequenceId, SeqActive), mail, SendSync(m)));
  }

  lemma SyncSplits(db: Db, mail: Mailer, m: nat, e: Solo)
    requires m < |db.messages| && db.messages[m].status == MsgSent
    ensures Ends(Solo(db, mail, SendSync(m)), e) <==> Ends(Marked(db, mail, m, true), e) || Ends(Marked(db, mail, m, false), e)
  {
    hide Ends;
    var no := Answer(true, true, true, true, false, None);
    Splits(Solo(db, mail, SendSync(m)), Marked(db, mail, m, true), YES, Marked(db, mail, m, false), no, e);
  }

  /** The call from the message row on, given how the CRM write goes. */
  function Delivered(db: Db, mail: Mailer, d: nat, m: nat, fixture: Fixture, crmOk: bool): Solo
    requires d < |db.drafts| && db.drafts[d].sequenceId < |db.sequences| && m < |db.messages|
  {
    var r := Calls.Deliver(Calls.Sdr(db, mail), d, m, Calls.SendEnv(fixture, true, crmOk)).0;
    Solo(r.db, r.mail, Finished)
  }

  /** Up to the provider's answer. */
  lemma ProviderReached(db: Db, mail: Mailer, c: SendCtx, m: nat)
    requires c.draft.sequenceId < |db.sequences| && m < |db.messages| && !Stopped(db.sequences[c.draft.sequenceId].status)
    ensures var db1 := SetMessage(db, m, db.messages[m].(status := MsgSending));
      var (mail1, answer) := SendEmail(mail, InputOf(db.tenantId, c));
      SameEnds(Solo(db, mail, SendLiveCheck(c, m)),
               Solo(db1, mail1, if answer.None? then SendCatch(m) else SendRecord(c, m, answer.value)))
  {
    hide SameEnds;
    var s0, s1 := Solo(db, mail, SendLiveCheck(c, m)), Solo(db, mail, SendMark(c, m));
    Only(s0, s1);
    var db1 := SetMessage(db, m, db.messages[m].(status := MsgSending));
    var s2 := Solo(db1, mail, SendProvider(c, m));
    Hop(s0, s1, s2);
    var (mail1, answer) := SendEmail(mail, InputOf(db.tenantId, c));
    Hop(s0, s2, Solo(db1, mail1, if answer.None? then SendCatch(m) else SendRecord(c, m, answer.value)));
  }

  lemma CatchEnds(db: Db, mail: Mailer, m: nat, e: Solo)
    requires m < |db.messages|
    ensures Ends(Solo(db, mail, SendCatch(m)), e)
      <==> e == Solo(SetMessage(db, m, db.messages[m].(status := MsgFailed, crmSync := SyncNone)), mail, Finished)
  {
    var next := Solo(SetMessage(db, m, db.messages[m].(status := MsgFailed, crmSync := SyncNone)), mail, Finished);
    Only(Solo(db, mail, SendCatch(m)), next);
    FinishedEnds(next, e);
    hide Ends;
  }

  /** From a provider id on: SENT row, SENT draft, the sequence's move, the CRM mark. */
  lemma RecordEnds(db: Db, mail: Mailer, c: SendCtx, m: nat, id: ProviderMessageId, e: Solo)
    requires c.d < |db.drafts| && m < |db.messages|
    ensures Ends(Solo(db, mail, SendRecord(c, m, id)), e) <==>
      exists crmOk :: e == Synced(SetMessage(db, m, SentRow(db.messages[m], id)), mail, c, m, crmOk)
  {
    var db1 := SetMessage(db, m, SentRow(db.messages[m], id));
    Only(Solo(db, mail, SendRecord(c, m, id)), Solo(db1, mail, SendDraft(c, m)));
    SyncEnds(db1, mail, c, m, e);
    hide Ends, Synced;
  }

  function SentRow(row: Message, id: ProviderMessageId): Message
  {
    row.(status := MsgSent, providerMessageId := Some(id), crmSync := SyncPending)
  }

  /** The call reads from the tables what the thread holds. */
  lemma SameInput(db: Db, c: SendCtx)
    requires c.d < |db.drafts| && c.draft == db.drafts[c.d] && c.draft.sequenceId < |db.sequences|
    requires c == CtxOf(db, c.d, c.fixture, c.approval)
    ensures InputOf(db.tenantId, c) == Calls.SendInputOf(db, c.d, c.fixture)
  {}

  lemma DeliverEnds(db: Db, mail: Mailer, c: SendCtx, m: nat, e: Solo)
    requires c.d < |db.drafts| && c.draft == db.drafts[c.d] && c.draft.sequenceId < |db.sequences| && m < |db.messages|
    requires !Stopped(db.sequences[c.draft.sequenceId].status)
    requires c == CtxOf(db, c.d, c.fixture, c.approval)
    ensures Ends(Solo(db, mail, SendLiveCheck(c, m)), e) <==>
      exists crmOk :: e == Delivered(db, mail, c.d, m, c.fixture, crmOk)
  {
    ProviderReached(db, mail, c, m);
    SameInput(db, c);
    hide Ends, Delivered, Synced, SendEmail, InputOf, Calls.SendInputOf;
    var db1 := SetMessage(db, m, db.messages[m].(status := MsgSending));
    var (mail1, answer) := SendEmail(mail, InputOf(db.tenantId, c));
    if answer.None? {
      CatchEnds(db1, mail1, m, e);
      FailedIsDelivered(db, mail, c, m);
      assert Ends(Solo(db, mail, SendLiveCheck(c, m)), e) <==> e == Delivered(db, mail, c.d, m, c.fixture, true);
    } else {
      RecordEnds(db1, mail1, c, m, answer.value, e);
      SyncedIsDelivered(db, mail, c, m, true);
      SyncedIsDelivered(db, mail, c, m, false);
    }
  }

  lemma FailedIsDelivered(db: Db, mail: Mailer, c: SendCtx, m: nat)
    requires c.d < |db.drafts| && c.draft == db.drafts[c.d] && c.draft.sequenceId < |db.sequences| && m < |db.messages|
    requires InputOf(db.tenantId, c) == Calls.SendInputOf(db, c.d, c.fixture)
    requires SendEmail(mail, InputOf(db.tenantId, c)).1.None?
    ensures var db1 := SetMessage(db, m, db.messages[m].(status := MsgSending));
      forall crmOk :: Delivered(db, mail, c.d, m, c.fixture, crmOk)
        == Solo(SetMessage(db1, m, db1.messages[m].(status := MsgFailed, crmSync := SyncNone)),
                SendEmail(mail, InputOf(db.tenantId, c)).0, Finished)
  {
    hide SendEmail, InputOf, Calls.SendInputOf;
    var db1 := SetMessage(db, m, db.messages[m].(status := MsgSending));
    assert db1.messages[m := db1.messages[m].(status := MsgFailed, crmSync := SyncNone)]
      == db.messages[m := db.messages[m].(status := MsgFailed, crmSync := SyncNone)];
  }

  lemma SyncedIsDelivered(db: Db, mail: Mailer, c: SendCtx, m: nat, crmOk: bool)
    requires c.d < |db.drafts| && c.draft == db.drafts[c.d] && c.draft.sequenceId < |db.sequences| && m < |db.messages|
    requires InputOf(db.tenantId, c) == Calls.SendInputOf(db, c.d, c.fixture)
    requires SendEmail(mail, InputOf(db.tenantId, c)).1.Some?
    ensures var db1 := SetMessage(db, m, db.messages[m].(status := MsgSending));
      var (mail1, answer) := SendEmail(mail, InputOf(db.tenantId, c));
      Synced(SetMessage(db1, m, SentRow(db1.messages[m], answer.value)), mail1, c, m, crmOk)
        == Delivered(db, mail, c.d, m, c.fixture, crmOk)
  {
    hide SendEmail, InputOf, Calls.SendInputOf;
    var db1 := SetMessage(db, m, db.messages[m].(status := MsgSending));
    var id := SendEmail(mail, InputOf(db.tenantId, c)).1.value;
    var db2 := SetMessage(db1, m, SentRow(db1.messages[m], id));
    var row := db.messages[m].(status := MsgSent, providerMessageId := Some(id), crmSync := CrmMark(crmOk));
    assert SetMessage(db2, m, db2.messages[m].(crmSync := CrmMark(crmOk))) == SetMessage(db, m, row);
  }

  /** The call ExecuteSend. */
  function SendResult(db: Db, mail: Mailer, d: nat, env: Calls.SendEnv): Solo
  {
    var r := Calls.ExecuteSend(Calls.Sdr(db, mail), d, env).0;
    Solo(r.db, r.mail, Finished)
  }

  /** Past the gate, the ends are the call's results for that candidate answer. */
  lemma PastGateEnds(db: Db, mail: Mailer, d: nat, fixture: Fixture, candidateOk: bool, e: Solo)
    ensures Ends(PastGate(db, mail, d, fixture, candidateOk), e) <==>
      exists crmOk :: e == SendResult(db, mail, d, Calls.SendEnv(fixture, candidateOk, crmOk))
  {
    var gate := Calls.AssertSendAllowed(db, d, candidateOk);
    if db.agentPaused || gate.Err? {
      FinishedEnds(Solo(db, mail, Finished), e);
      assert forall crmOk :: SendResult(db, mail, d, Calls.SendEnv(fixture, candidateOk, crmOk)) == Solo(db, mail, Finished);
    } else {
      LookupEnds(db, mail, d, fixture, candidateOk, e);
    }
  }

  lemma LookupEnds(db: Db, mail: Mailer, d: nat, fixture: Fixture, candidateOk: bool, e: Solo)
    requires !db.agentPaused && Calls.AssertSendAllowed(db, d, candidateOk).Ok?
    ensures Ends(PastGate(db, mail, d, fixture, candidateOk), e) <==>
      exists crmOk :: e == SendResult(db, mail, d, Calls.SendEnv(fixture, candidateOk, crmOk))
  {
    var a := Calls.AssertSendAllowed(db, d, candidateOk).value;
    var c := CtxOf(db, d, fixture, a);
    var key := KeyOf(db.tenantId, d, db.drafts[d]);
    var found := FindMessage(db.messages, key);
    var s1 := Solo(db, mail, SendFindMessage(c));
    if found.Some? && db.messages[found.value].status == MsgSent {
      Only(s1, Solo(db, mail, Finished));
      FinishedEnds(Solo(db, mail, Finished), e);
      hide Ends;
      assert forall crmOk :: SendResult(db, mail, d, Calls.SendEnv(fixture, candidateOk, crmOk)) == Solo(db, mail, Finished);
    } else if found.Some? {
      Only(s1, Solo(db, mail, SendLiveCheck(c, found.value)));
      DeliverEnds(db, mail, c, found.value, e);
      hide Ends, Calls.Deliver;
      forall crmOk ensures SendResult(db, mail, d, Calls.SendEnv(fixture, candidateOk, crmOk))
        == Delivered(db, mail, d, found.value, fixture, crmOk)
      {
        FoundIsDelivered(db, mail, d, Calls.SendEnv(fixture, candidateOk, crmOk));
      }
    } else {
      NewRowEnds(db, mail, d, fixture, candidateOk, e);
    }
  }

  lemma FoundIsDelivered(db: Db, mail: Mailer, d: nat, env: Calls.SendEnv)
    requires !db.agentPaused && Calls.AssertSendAllowed(db, d, env.candidateOk).Ok?
    requires FindMessage(db.messages, KeyOf(db.tenantId, d, db.drafts[d])).Some?
    requires db.messages[FindMessage(db.messages, KeyOf(db.tenantId, d, db.drafts[d])).value].status != MsgSent
    ensures SendResult(db, mail, d, env)
      == Delivered(db, mail, d, FindMessage(db.messages, KeyOf(db.tenantId, d, db.drafts[d])).value, env.fixture, env.crmOk)
  {
    hide SendEmail, FindMessage, Calls.AssertSendAllowed;
  }

  lemma NewIsDelivered(db: Db, mail: Mailer, d: nat, env: Calls.SendEnv)
    requires !db.agentPaused && Calls.AssertSendAllowed(db, d, env.candidateOk).Ok?
    requires FindMessage(db.messages, KeyOf(db.tenantId, d, db.drafts[d])).None?
    ensures var key, a := KeyOf(db.tenantId, d, db.drafts[d]), Calls.AssertSendAllowed(db, d, env.candidateOk).value;
      SendResult(db, mail, d, env)
        == Delivered(InsertMessage(db, db.drafts[d].sequenceId, d, a, key), mail, d, |db.messages|, env.fixture, env.crmOk)
  {
    hide SendEmail, FindMessage, Calls.AssertSendAllowed;
  }

  lemma NewRowEnds(db: Db, mail: Mailer, d: nat, fixture: Fixture, candidateOk: bool, e: Solo)
    requires !db.agentPaused && Calls.AssertSendAllowed(db, d, candidateOk).Ok?
    requires FindMessage(db.messages, KeyOf(db.tenantId, d, db.drafts[d])).None?
    ensures Ends(PastGate(db, mail, d, fixture, candidateOk), e) <==>
      exists crmOk :: e == SendResult(db, mail, d, Calls.SendEnv(fixture, candidateOk, crmOk))
  {
    var a := Calls.AssertSendAllowed(db, d, candidateOk).value;
    var c, key := CtxOf(db, d, fixture, a), KeyOf(db.tenantId, d, db.drafts[d]);
    var s1, s2 := Solo(db, mail, SendFindMessage(c)), Solo(db, mail, SendCreateMessage(c));
    var db1 := InsertMessage(db, db.drafts[d].sequenceId, d, a, key);
    Only(s1, s2);
    Hop(s1, s2, Solo(db1, mail, SendLiveCheck(c, |db.messages|)));
    DeliverEnds(db1, mail, c, |db.messages|, e);
    hide Ends, Calls.Deliver;
    forall crmOk ensures SendResult(db, mail, d, Calls.SendEnv(fixture, candidateOk, crmOk))
      == Delivered(db1, mail, d, |db.messages|, fixture, crmOk)
    {
      NewIsDelivered(db, mail, d, Calls.SendEnv(fixture, candidateOk, crmOk));
    }
  }

  /** executeSend alone finishes with exactly the results of the call, over all answers of candidate and CRM. */
  lemma SendAlone(db: Db, mail: Mailer, d: nat, fixture: Fixture, e: Solo)
    ensures Ends(Solo(db, mail, SendPaused(d, fixture)), e) <==>
      exists env: Calls.SendEnv :: env.fixture == fixture && e == SendResult(db, mail, d, env)
  {
    GateEnds(db, mail, d, fixture, e);
    PastGateEnds(db, mail, d, fixture, true, e);
    PastGateEnds(db, mail, d, fixture, false, e);
    hide Ends, SendResult;
    if env: Calls.SendEnv :| env.fixture == fixture && e == SendResult(db, mail, d, env) {
      assert env == Calls.SendEnv(fixture, env.candidateOk, env.crmOk);
    }
  }
}
