/**
 Safety of every interleaving of service calls at statement granularity: at most one
 delivery per draft, exact-content approval of each provider call, and stop-safety.
*/
module SdrThreadSafety {
  import opened Wrappers
  import opened OutboundProvider
  import opened SdrModel
  import opened SdrRows
  import opened SdrThreads

  // -------------------------------------------------------------- invariant

  /** A provider call was for a draft of ours, under its key, with content some approval row names. */
  ghost predicate CallOk(db: Db, input: SendInput)
  {
    && input.draftId < |db.drafts|
    && input.key == KeyOf(db.tenantId, input.draftId, db.drafts[input.draftId])
    && exists a :: 0 <= a < |db.approvals| && Covers(db, a, input)
  }

  ghost predicate MailOk(db: Db, mail: Mailer)
  {
    && OncePerKey(mail)
    && (forall i | 0 <= i < |mail.sendCalls| :: CallOk(db, mail.sendCalls[i]))
    && (forall i | 0 <= i < |mail.delivered| :: CallOk(db, mail.delivered[i]))
    && (forall m | 0 <= m < |db.messages| :: MessageRecorded(mail, db.messages[m]))
  }

  /** A draft as a thread read it: only the status may have moved since. */
  ghost predicate Snapshot(db: Db, d: nat, draft: Draft)
  {
    d < |db.drafts| && draft == db.drafts[d].(status := draft.status)
  }

  ghost predicate CtxOk(db: Db, c: SendCtx)
  {
    && Snapshot(db, c.d, c.draft)
    && Addressed(db, c.draft, c.email)
    && c.approval < |db.approvals| && db.approvals[c.approval].draftId == c.d
  }

  ghost predicate RowOf(db: Db, m: nat, d: nat)
  {
    m < |db.messages| && db.messages[m].draftId == d
  }

  /** What a thread's local values still say about the tables. */
  ghost predicate ThreadOk(db: Db, mail: Mailer, t: Thread)
  {
    match t
    case SendReadSequence(d, _, draft) => Snapshot(db, d, draft)
    case SendReadApproval(d, _, draft, email) => Snapshot(db, d, draft) && Addressed(db, draft, email)
    case SendReadCandidate(c) => CtxOk(db, c)
    case SendFindMessage(c) => CtxOk(db, c)
    case SendCreateMessage(c) => CtxOk(db, c)
    case SendLiveCheck(c, m) => CtxOk(db, c) && RowOf(db, m, c.d)
    case SendBlocked(m) => m < |db.messages|
    case SendMark(c, m) => CtxOk(db, c) && RowOf(db, m, c.d)
    case SendProvider(c, m) => CtxOk(db, c) && RowOf(db, m, c.d)
    case SendRecord(c, m, id) =>
      && CtxOk(db, c) && RowOf(db, m, c.d)
      && id == DetMsg(KeyOf(db.tenantId, c.d, c.draft)) && KeyOf(db.tenantId, c.d, c.draft) in mail.sentByKey
    case SendDraft(c, m) => CtxOk(db, c) && RowOf(db, m, c.d)
    case SendActivate(c, m) => CtxOk(db, c) && RowOf(db, m, c.d)
    case SendSync(m) => m < |db.messages|
    case SendCatch(m) => m < |db.messages|
    case ApproveInsert(d, draft) => Snapshot(db, d, draft)
    case DraftResearch(g) => g.q < |db.sequences|
    case DraftPropose(g) => g.q < |db.sequences|
    case DraftInsertBooking(g) => g.q < |db.sequences|
    case DraftGenerate(g) => g.q < |db.sequences|
    case DraftFindPrior(g, _) => g.q < |db.sequences|
    case DraftSupersede(g, _, _) => g.q < |db.sequences|
    case DraftRevoke(g, _, _) => g.q < |db.sequences|
    case DraftVersion(g, _) => g.q < |db.sequences|
    case DraftInsert(g, _, _) => g.q < |db.sequences|
    case _ => true
  }

  ghost predicate Safe(w: World)
  {
    && RowsOk(w.db)
    && MailOk(w.db, w.mail)
    && (forall tid | 0 <= tid < |w.threads| :: ThreadOk(w.db, w.mail, w.threads[tid]))
  }

  // ------------------------------------------------------- growth of the tables

  ghost predicate ApprovalsGrow(a: seq<Approval>, b: seq<Approval>)
  {
    |a| <= |b| && forall i | 0 <= i < |a| :: b[i] == a[i].(active := b[i].active)
  }

  ghost predicate MessagesGrow(a: seq<Message>, b: seq<Message>)
  {
    |a| <= |b| && forall m | 0 <= m < |a| ::
      b[m].draftId == a[m].draftId && b[m].key == a[m].key && b[m].sequenceId == a[m].sequenceId
  }

  /** Nothing is deleted, and the columns other rows rely on never change. */
  ghost predicate DbGrows(a: Db, b: Db)
  {
    && b.tenantId == a.tenantId
    && TargetsStay(a.sequences, b.sequences)
    && Grows(a.drafts, b.drafts)
    && ApprovalsGrow(a.approvals, b.approvals)
    && MessagesGrow(a.messages, b.messages)
  }

  /** The statements that write draft rows. */
  function DraftsAfter(db: Db, t: Thread): seq<Draft>
  {
    match t
    case SendDraft(c, _) => UpdateDraft(db, c.d, DraftSent).drafts
    case DraftSupersede(_, _, todo) => if todo == [] then db.drafts else UpdateDraft(db, todo[0], DraftSuperseded).drafts
    case DraftInsert(g, text, version) =>
      if VersionTaken(db.drafts, g.q, version) then db.drafts else InsertDraft(db, g.q, version, g.purpose, text).drafts
    case ApproveMark(d, _) => UpdateDraft(db, d, DraftApproved).drafts
    case RevokeMark(d) => UpdateDraft(db, d, DraftAwaiting).drafts
    case RejectMark(d) => UpdateDraft(db, d, DraftRejected).drafts
    case _ => db.drafts
  }

  /** The statements that write approval rows. */
  function ApprovalsAfter(db: Db, t: Thread): seq<Approval>
  {
    match t
    case DraftRevoke(_, _, todo) => if todo == [] then db.approvals else RevokeActive(db, todo[0]).approvals
    case ApproveInsert(d, draft) => InsertApproval(db, d, draft).approvals
    case RevokeRows(d) => RevokeActive(db, d).approvals
    case RejectRows(d) => RevokeActive(db, d).approvals
    case _ => db.approvals
  }

  /** The statements that write message rows are executeSend's. */
  function MessagesAfter(db: Db, t: Thread, ans: Answer): seq<Message>
  {
    if IsSend(t) then WriteSend(db, t, ans).messages else db.messages
  }

  lemma DraftsWritten(db: Db, t: Thread, ans: Answer)
    ensures Write(db, t, ans).drafts == DraftsAfter(db, t)
  {
    hide WriteSend, WriteDraft, WriteOther, DraftsAfter;
    if IsSend(t) { SendRows(db, t, ans); } else if IsDrafting(t) { DraftingRows(db, t); } else { OtherRows(db, t); }
  }

  lemma ApprovalsWritten(db: Db, t: Thread, ans: Answer)
    ensures Write(db, t, ans).approvals == ApprovalsAfter(db, t)
  {
    hide WriteSend, WriteDraft, WriteOther, ApprovalsAfter;
    if IsSend(t) { SendRows(db, t, ans); } else if IsDrafting(t) { DraftingRows(db, t); } else { OtherRows(db, t); }
  }

  lemma MessagesWritten(db: Db, t: Thread, ans: Answer)
    ensures Write(db, t, ans).messages == MessagesAfter(db, t, ans)
    ensures Write(db, t, ans).tenantId == db.tenantId && TargetsStay(db.sequences, Write(db, t, ans).sequences)
  {
    hide WriteSend, WriteDraft, WriteOther, DraftsAfter, ApprovalsAfter, TargetsStay;
    if IsSend(t) {
      SendRows(db, t, ans);
      SendTargets(db, t, ans);
    } else if IsDrafting(t) {
      DraftingRows(db, t);
      DraftingTargets(db, t);
    } else {
      OtherRows(db, t);
      OtherTargets(db, t);
    }
  }

  lemma SendTargets(db: Db, t: Thread, ans: Answer)
    ensures TargetsStay(db.sequences, WriteSend(db, t, ans).sequences)
  {}

  lemma DraftingTargets(db: Db, t: Thread)
    ensures TargetsStay(db.sequences, WriteDraft(db, t).sequences)
  {}

  lemma OtherTargets(db: Db, t: Thread)
    ensures TargetsStay(db.sequences, WriteOther(db, t).sequences)
  {}

  lemma SendRows(db: Db, t: Thread, ans: Answer)
    requires IsSend(t)
    ensures WriteSend(db, t, ans).drafts == DraftsAfter(db, t) && WriteSend(db, t, ans).approvals == ApprovalsAfter(db, t)
    ensures WriteSend(db, t, ans).tenantId == db.tenantId
  {}

  lemma DraftingRows(db: Db, t: Thread)
    requires IsDrafting(t)
    ensures WriteDraft(db, t).drafts == DraftsAfter(db, t) && WriteDraft(db, t).approvals == ApprovalsAfter(db, t)
    ensures WriteDraft(db, t).messages == db.messages
    ensures WriteDraft(db, t).tenantId == db.tenantId
  {}

  lemma OtherRows(db: Db, t: Thread)
    requires !IsSend(t) && !IsDrafting(t)
    ensures WriteOther(db, t).drafts == DraftsAfter(db, t) && WriteOther(db, t).approvals == ApprovalsAfter(db, t)
    ensures WriteOther(db, t).messages == db.messages
    ensures WriteOther(db, t).tenantId == db.tenantId
  {}

  lemma DraftsGrow(db: Db, t: Thread)
    ensures Grows(db.drafts, DraftsAfter(db, t))
  {}

  lemma ApprovalRowsGrow(db: Db, t: Thread)
    ensures ApprovalsGrow(db.approvals, ApprovalsAfter(db, t))
  {}

  lemma MessageRowsGrow(db: Db, t: Thread, ans: Answer)
    ensures MessagesGrow(db.messages, MessagesAfter(db, t, ans))
  {
    hide FindMessage, KeyOf;
  }

  lemma WriteGrows(db: Db, t: Thread, ans: Answer)
    ensures DbGrows(db, Write(db, t, ans))
  {
    hide Write, DraftsAfter, ApprovalsAfter, MessagesAfter;
    DraftsWritten(db, t, ans);
    ApprovalsWritten(db, t, ans);
    MessagesWritten(db, t, ans);
    DraftsGrow(db, t);
    ApprovalRowsGrow(db, t);
    MessageRowsGrow(db, t, ans);
  }

  lemma CallOkStable(db: Db, db1: Db, input: SendInput)
    requires CallOk(db, input) && DbGrows(db, db1)
    ensures CallOk(db1, input)
  {
    var a :| 0 <= a < |db.approvals| && Covers(db, a, input);
    assert db1.drafts[input.draftId] == db.drafts[input.draftId].(status := db1.drafts[input.draftId].status);
    assert db1.approvals[a] == db.approvals[a].(active := db1.approvals[a].active);
    assert Covers(db1, a, input);
  }

  lemma CtxStable(db: Db, db1: Db, c: SendCtx)
    requires CtxOk(db, c) && DbGrows(db, db1)
    ensures CtxOk(db1, c)
  {
    assert db1.drafts[c.d] == db.drafts[c.d].(status := db1.drafts[c.d].status);
    assert db1.approvals[c.approval] == db.approvals[c.approval].(active := db1.approvals[c.approval].active);
  }

  lemma SnapshotStable(db: Db, db1: Db, d: nat, draft: Draft)
    requires Snapshot(db, d, draft) && DbGrows(db, db1)
    ensures Snapshot(db1, d, draft)
  {
    assert db1.drafts[d] == db.drafts[d].(status := db1.drafts[d].status);
  }

  lemma ThreadStable(db: Db, mail: Mailer, db1: Db, mail1: Mailer, t: Thread)
    requires ThreadOk(db, mail, t) && DbGrows(db, db1) && mail.sentByKey.Keys <= mail1.sentByKey.Keys
    ensures ThreadOk(db1, mail1, t)
  {
    match t
    case SendReadSequence(d, _, draft) => SnapshotStable(db, db1, d, draft);
    case SendReadApproval(d, _, draft, _) => SnapshotStable(db, db1, d, draft);
    case SendReadCandidate(c) => CtxStable(db, db1, c);
    case SendFindMessage(c) => CtxStable(db, db1, c);
    case SendCreateMessage(c) => CtxStable(db, db1, c);
    case SendLiveCheck(c, m) => CtxStable(db, db1, c);
    case SendMark(c, m) => CtxStable(db, db1, c);
    case SendProvider(c, m) => CtxStable(db, db1, c);
    case SendRecord(c, m, id) => CtxStable(db, db1, c);
    case SendDraft(c, m) => CtxStable(db, db1, c);
    case SendActivate(c, m) => CtxStable(db, db1, c);
    case ApproveInsert(d, draft) => SnapshotStable(db, db1, d, draft);
    case _ =>
  }

  // ------------------------------------------------------------ preservation

  lemma DraftsStayOk(db: Db, mail: Mailer, t: Thread, row: Draft)
    requires RowsOk(db) && ThreadOk(db, mail, t) && row in DraftsAfter(db, t)
    ensures DraftOk(db, row)
  {
    var d :| 0 <= d < |DraftsAfter(db, t)| && DraftsAfter(db, t)[d] == row;
    if d < |db.drafts| {
      assert DraftOk(db, db.drafts[d]);
      DraftsGrow(db, t);
    }
  }

  lemma ApprovalsStayOk(db: Db, mail: Mailer, t: Thread, row: Approval, drafts: seq<Draft>)
    requires RowsOk(db) && ThreadOk(db, mail, t) && row in ApprovalsAfter(db, t) && Grows(db.drafts, drafts)
    ensures ApprovalOk(drafts, row)
  {
    hide DraftOk;
    var a :| 0 <= a < |ApprovalsAfter(db, t)| && ApprovalsAfter(db, t)[a] == row;
    if a < |db.approvals| {
      assert ApprovalOk(db.drafts, db.approvals[a]);
      ApprovalRowsGrow(db, t);
    }
  }

  lemma MessagesStayOk(db: Db, mail: Mailer, t: Thread, ans: Answer, row: Message, drafts: seq<Draft>)
    requires RowsOk(db) && ThreadOk(db, mail, t) && row in MessagesAfter(db, t, ans) && Grows(db.drafts, drafts)
    ensures MessageOk(db.tenantId, drafts, row)
  {
    hide DraftOk, ApprovalOk;
    if t.SendCreateMessage? {
      CreatedRowOk(db, mail, t.c, ans, row, drafts);
    } else {
      OthersAddNoRow(db, t, ans);
      MessageRowsGrow(db, t, ans);
      hide MessagesAfter, ThreadOk;
      var m :| 0 <= m < |MessagesAfter(db, t, ans)| && MessagesAfter(db, t, ans)[m] == row;
      assert MessageOk(db.tenantId, db.drafts, db.messages[m]);
    }
  }

  lemma OthersAddNoRow(db: Db, t: Thread, ans: Answer)
    requires !t.SendCreateMessage?
    ensures |MessagesAfter(db, t, ans)| == |db.messages|
  {}

  lemma CreatedRowOk(db: Db, mail: Mailer, c: SendCtx, ans: Answer, row: Message, drafts: seq<Draft>)
    requires RowsOk(db) && ThreadOk(db, mail, SendCreateMessage(c)) && Grows(db.drafts, drafts)
    requires row in MessagesAfter(db, SendCreateMessage(c), ans)
    ensures MessageOk(db.tenantId, drafts, row)
  {
    hide DraftOk, ApprovalOk, FindMessage;
    if row in db.messages {
      var m :| 0 <= m < |db.messages| && db.messages[m] == row;
      assert MessageOk(db.tenantId, db.drafts, db.messages[m]);
    }
  }

  lemma WriteKeepsRows(db: Db, mail: Mailer, t: Thread, ans: Answer)
    requires RowsOk(db) && ThreadOk(db, mail, t)
    ensures RowsOk(Write(db, t, ans))
  {
    hide Write, DraftsAfter, ApprovalsAfter, MessagesAfter, ThreadOk;
    var db1 := Write(db, t, ans);
    WriteGrows(db, t, ans);
    DraftsWritten(db, t, ans);
    ApprovalsWritten(db, t, ans);
    MessagesWritten(db, t, ans);
    forall d | 0 <= d < |db1.drafts| ensures DraftOk(db1, db1.drafts[d]) {
      DraftsStayOk(db, mail, t, db1.drafts[d]);
    }
    forall a | 0 <= a < |db1.approvals| ensures ApprovalOk(db1.drafts, db1.approvals[a]) {
      ApprovalsStayOk(db, mail, t, db1.approvals[a], db1.drafts);
    }
    forall m | 0 <= m < |db1.messages| ensures MessageOk(db1.tenantId, db1.drafts, db1.messages[m]) {
      MessagesStayOk(db, mail, t, ans, db1.messages[m], db1.drafts);
    }
  }

  /** A thread at the provider call holds exactly the content its approval names. */
  lemma InputOk(db: Db, c: SendCtx)
    requires RowsOk(db) && CtxOk(db, c)
    ensures CallOk(db, InputOf(db.tenantId, c)) && Covers(db, c.approval, InputOf(db.tenantId, c))
  {
    assert DraftOk(db, db.drafts[c.d]) && ApprovalOk(db.drafts, db.approvals[c.approval]);
    assert Covers(db, c.approval, InputOf(db.tenantId, c));
  }

  /** A provider call logs nothing but its own input and forgets nothing. */
  lemma SendLogs(mail: Mailer, input: SendInput)
    ensures var mail1 := SendEmail(mail, input).0;
      && (mail1.sendCalls == mail.sendCalls || mail1.sendCalls == mail.sendCalls + [input])
      && (mail1.delivered == mail.delivered || mail1.delivered == mail.delivered + [input])
      && mail.sentByKey.Keys <= mail1.sentByKey.Keys
  {}

  lemma SendKeepsMail(db: Db, mail: Mailer, input: SendInput)
    requires MailOk(db, mail) && CallOk(db, input)
    ensures MailOk(db, SendEmail(mail, input).0)
  {
    hide CallOk, SendEmail, OncePerKey;
    SendKeepsOncePerKey(mail, input);
    SendLogs(mail, input);
    var mail1 := SendEmail(mail, input).0;
    forall m | 0 <= m < |db.messages| ensures MessageRecorded(mail1, db.messages[m]) {
      assert MessageRecorded(mail, db.messages[m]);
    }
  }

  lemma CallKeepsMail(db: Db, mail: Mailer, t: Thread)
    requires RowsOk(db) && MailOk(db, mail) && ThreadOk(db, mail, t)
    ensures MailOk(db, Call(db.tenantId, mail, t))
    ensures mail.sentByKey.Keys <= Call(db.tenantId, mail, t).sentByKey.Keys
  {
    if t.SendProvider? {
      InputOk(db, t.c);
      hide CallOk, MailOk, RowsOk, CtxOk, SendEmail;
      SendKeepsMail(db, mail, InputOf(db.tenantId, t.c));
      SendLogs(mail, InputOf(db.tenantId, t.c));
    }
  }

  lemma MessagesStayRecorded(db: Db, mail: Mailer, t: Thread, ans: Answer, row: Message)
    requires RowsOk(db) && ThreadOk(db, mail, t) && row in MessagesAfter(db, t, ans)
    requires forall m | 0 <= m < |db.messages| :: MessageRecorded(mail, db.messages[m])
    ensures MessageRecorded(mail, row)
  {
    hide MessagesAfter, RowsOk, ThreadOk, MessageRecorded;
    if t.SendCreateMessage? {
      CreatedStaysRecorded(db, mail, t.c, ans, row);
    } else if t.SendRecord? {
      AnswerStaysRecorded(db, mail, t.c, t.m, t.id, ans, row);
    } else {
      OthersKeepProviderIds(db, t, ans);
      var m :| 0 <= m < |MessagesAfter(db, t, ans)| && MessagesAfter(db, t, ans)[m] == row;
      assert MessageRecorded(mail, db.messages[m]);
      SameIdRecorded(mail, db.messages[m], row);
    }
  }

  lemma SameIdRecorded(mail: Mailer, row: Message, row1: Message)
    requires MessageRecorded(mail, row) && SameProviderId(row, row1)
    ensures MessageRecorded(mail, row1)
  {}

  lemma CreatedStaysRecorded(db: Db, mail: Mailer, c: SendCtx, ans: Answer, row: Message)
    requires row in MessagesAfter(db, SendCreateMessage(c), ans)
    requires forall m | 0 <= m < |db.messages| :: MessageRecorded(mail, db.messages[m])
    ensures MessageRecorded(mail, row)
  {
    hide FindMessage, KeyOf;
    if row in db.messages {
      var m :| 0 <= m < |db.messages| && db.messages[m] == row;
      assert MessageRecorded(mail, db.messages[m]);
    }
  }

  lemma AnswerStaysRecorded(db: Db, mail: Mailer, c: SendCtx, m: nat, id: ProviderMessageId, ans: Answer, row: Message)
    requires RowsOk(db) && ThreadOk(db, mail, SendRecord(c, m, id)) && row in MessagesAfter(db, SendRecord(c, m, id), ans)
    requires forall m | 0 <= m < |db.messages| :: MessageRecorded(mail, db.messages[m])
    ensures MessageRecorded(mail, row)
  {
    assert CtxOk(db, c) && RowOf(db, m, c.d) && MessageOk(db.tenantId, db.drafts, db.messages[m]);
    var n :| 0 <= n < |db.messages| && MessagesAfter(db, SendRecord(c, m, id), ans)[n] == row;
    assert MessageRecorded(mail, db.messages[n]);
  }

  /** Only the record of a provider's answer writes a provider id or makes a row SENT. */
  lemma OthersKeepProviderIds(db: Db, t: Thread, ans: Answer)
    requires !t.SendCreateMessage? && !t.SendRecord?
    ensures var rows := MessagesAfter(db, t, ans);
      |rows| == |db.messages| && forall m | 0 <= m < |rows| :: SameProviderId(db.messages[m], rows[m])
  {}

  predicate SameProviderId(row: Message, row1: Message)
  {
    row1.providerMessageId == row.providerMessageId && row1.key == row.key && (row1.status == MsgSent ==> row.status == MsgSent)
  }

  lemma WriteKeepsRecorded(db: Db, mail: Mailer, t: Thread, ans: Answer)
    requires RowsOk(db) && MailOk(db, mail) && ThreadOk(db, mail, t)
    ensures var db1 := Write(db, t, ans);
      forall m | 0 <= m < |db1.messages| :: MessageRecorded(mail, db1.messages[m])
  {
    hide Write, MessagesAfter, ThreadOk, RowsOk, CallOk;
    MessagesWritten(db, t, ans);
    var db1 := Write(db, t, ans);
    forall m | 0 <= m < |db1.messages| ensures MessageRecorded(mail, db1.messages[m]) {
      MessagesStayRecorded(db, mail, t, ans, db1.messages[m]);
    }
  }

  lemma WriteKeepsMail(db: Db, mail: Mailer, t: Thread, ans: Answer)
    requires RowsOk(db) && MailOk(db, mail) && ThreadOk(db, mail, t)
    ensures MailOk(Write(db, t, ans), mail)
  {
    var db1 := Write(db, t, ans);
    WriteGrows(db, t, ans);
    WriteKeepsRecorded(db, mail, t, ans);
    hide Write, ThreadOk;
    forall i | 0 <= i < |mail.sendCalls| ensures CallOk(db1, mail.sendCalls[i]) {
      CallOkStable(db, db1, mail.sendCalls[i]);
    }
    forall i | 0 <= i < |mail.delivered| ensures CallOk(db1, mail.delivered[i]) {
      CallOkStable(db, db1, mail.delivered[i]);
    }
  }

  /** The reads of the send gate. */
  predicate IsGate(t: Thread)
  {
    t.SendPaused? || t.SendReadDraft? || t.SendReadSequence? || t.SendReadApproval? || t.SendReadCandidate?
  }

  lemma NextGateOk(db: Db, mail: Mailer, t: Thread, ans: Answer)
    requires RowsOk(db) && ThreadOk(db, mail, t) && IsGate(t)
    ensures ThreadOk(Write(db, t, ans), Call(db.tenantId, mail, t), NextSend(db, mail, t, ans))
  {
    hide RowsOk;
  }

  lemma NextSendOk(db: Db, mail: Mailer, t: Thread, ans: Answer)
    requires RowsOk(db) && OncePerKey(mail) && ThreadOk(db, mail, t) && IsSend(t) && !IsGate(t)
    ensures ThreadOk(Write(db, t, ans), Call(db.tenantId, mail, t), NextSend(db, mail, t, ans))
  {
    if t.SendFindMessage? {
      FoundOk(db, mail, t.c, ans);
    } else if t.SendCreateMessage? {
      CreatedOk(db, mail, t.c, ans);
    } else if t.SendProvider? {
      AnsweredOk(db, mail, t.c, t.m, ans);
    } else {
      WriteGrows(db, t, ans);
      ThreadStable(db, mail, Write(db, t, ans), mail, t);
      hide Write, RowsOk, OncePerKey, ThreadOk, NextSend;
      MovesOnOk(db, mail, Write(db, t, ans), t, ans);
    }
  }

  /** What a send past its lookups holds is enough for where it goes. */
  lemma MovesOnOk(db: Db, mail: Mailer, db1: Db, t: Thread, ans: Answer)
    requires ThreadOk(db1, mail, t) && IsSend(t) && !IsGate(t)
    requires !t.SendFindMessage? && !t.SendCreateMessage? && !t.SendProvider?
    ensures ThreadOk(db1, mail, NextSend(db, mail, t, ans))
  {
    hide CtxOk, SendEmail, FindMessage, FindActive;
  }

  lemma FoundOk(db: Db, mail: Mailer, c: SendCtx, ans: Answer)
    requires RowsOk(db) && CtxOk(db, c)
    ensures ThreadOk(Write(db, SendFindMessage(c), ans), mail, NextSend(db, mail, SendFindMessage(c), ans))
  {
    var m := FindMessage(db.messages, KeyOf(db.tenantId, c.d, c.draft));
    if m.Some? { assert MessageOk(db.tenantId, db.drafts, db.messages[m.value]); }
  }

  lemma CreatedOk(db: Db, mail: Mailer, c: SendCtx, ans: Answer)
    requires CtxOk(db, c)
    ensures ThreadOk(Write(db, SendCreateMessage(c), ans), mail, NextSend(db, mail, SendCreateMessage(c), ans))
  {
    hide FindMessage;
  }

  lemma AnsweredOk(db: Db, mail: Mailer, c: SendCtx, m: nat, ans: Answer)
    requires OncePerKey(mail) && CtxOk(db, c) && RowOf(db, m, c.d)
    ensures ThreadOk(Write(db, SendProvider(c, m), ans), Call(db.tenantId, mail, SendProvider(c, m)),
                     NextSend(db, mail, SendProvider(c, m), ans))
  {
    SendKeepsOncePerKey(mail, InputOf(db.tenantId, c));
    hide OncePerKey, CtxOk, RowOf;
  }

  lemma NextOk(db: Db, mail: Mailer, t: Thread, ans: Answer)
    requires RowsOk(db) && OncePerKey(mail) && ThreadOk(db, mail, t)
    ensures ThreadOk(Write(db, t, ans), Call(db.tenantId, mail, t), Next(db, mail, t, ans))
  {
    hide ThreadOk, Write, Call, NextSend, NextDraft, NextOther, RowsOk, OncePerKey;
    if IsGate(t) {
      NextGateOk(db, mail, t, ans);
    } else if IsSend(t) {
      NextSendOk(db, mail, t, ans);
    } else if IsDrafting(t) {
      NextDraftOk(db, mail, t, ans);
    } else {
      NextOtherOk(db, mail, t, ans);
    }
  }

  lemma NextDraftOk(db: Db, mail: Mailer, t: Thread, ans: Answer)
    requires ThreadOk(db, mail, t) && IsDrafting(t)
    ensures ThreadOk(Write(db, t, ans), Call(db.tenantId, mail, t), NextDraft(db, t, ans))
  {
    WriteGrows(db, t, ans);
    hide Write, NextDraft, ThreadOk, DbGrows;
    if t.DraftReadSequence? {
      ReadSequenceOk(db, mail, Write(db, t, ans), t.g, ans);
    } else {
      KeepsSequenceOk(db, mail, Write(db, t, ans), t, ans);
    }
  }

  lemma ReadSequenceOk(db: Db, mail: Mailer, db1: Db, g: DraftCtx, ans: Answer)
    requires DbGrows(db, db1)
    ensures ThreadOk(db1, mail, NextDraft(db, DraftReadSequence(g), ans))
  {}

  lemma KeepsSequenceOk(db: Db, mail: Mailer, db1: Db, t: Thread, ans: Answer)
    requires ThreadOk(db, mail, t) && IsDrafting(t) && !t.DraftReadSequence? && DbGrows(db, db1)
    ensures ThreadOk(db1, mail, NextDraft(db, t, ans))
  {
    hide Prior, MaxVersion, VersionTaken;
  }

  lemma NextOtherOk(db: Db, mail: Mailer, t: Thread, ans: Answer)
    requires ThreadOk(db, mail, t) && !IsSend(t) && !IsDrafting(t)
    ensures ThreadOk(Write(db, t, ans), Call(db.tenantId, mail, t), NextOther(db, t, ans))
  {}

  lemma OnErrorOk(db: Db, mail: Mailer, mail1: Mailer, t: Thread)
    requires ThreadOk(db, mail, t)
    ensures ThreadOk(db, mail1, OnError(t))
  {}

  lemma IssueKeepsSafe(w: World, tid: nat, ans: Answer, next: Thread)
    requires Safe(w) && tid < |w.threads|
    requires ThreadOk(Write(w.db, w.threads[tid], ans), Call(w.db.tenantId, w.mail, w.threads[tid]), next)
    ensures Safe(Issue(w, tid, ans, next))
  {
    var t := w.threads[tid];
    var db1, mail1 := Write(w.db, t, ans), Call(w.db.tenantId, w.mail, t);
    WriteGrows(w.db, t, ans);
    WriteKeepsRows(w.db, w.mail, t, ans);
    CallKeepsMail(w.db, w.mail, t);
    ThreadStable(w.db, w.mail, w.db, mail1, t);
    WriteKeepsMail(w.db, mail1, t, ans);
    var w1 := Issue(w, tid, ans, next);
    forall k | 0 <= k < |w1.threads| ensures ThreadOk(db1, mail1, w1.threads[k]) {
      if k != tid { ThreadStable(w.db, w.mail, db1, mail1, w.threads[k]); }
    }
  }

  lemma RunOk(w: World, tid: nat, ans: Answer)
    requires Safe(w) && tid < |w.threads|
    ensures var t := w.threads[tid];
      ThreadOk(Write(w.db, t, ans), Call(w.db.tenantId, w.mail, t), Next(w.db, w.mail, t, ans))
  {
    hide Write, Next, Call, RowsOk, ThreadOk, CallOk;
    NextOk(w.db, w.mail, w.threads[tid], ans);
  }

  lemma FailOk(w: World, tid: nat, ans: Answer)
    requires Safe(w) && tid < |w.threads|
    ensures var t := w.threads[tid];
      ThreadOk(Write(w.db, t, ans), Call(w.db.tenantId, w.mail, t), OnError(t))
  {
    hide Write, Call, RowsOk, ThreadOk, MailOk, OnError;
    var t := w.threads[tid];
    var db1 := Write(w.db, t, ans);
    WriteGrows(w.db, t, ans);
    ThreadStable(w.db, w.mail, db1, w.mail, t);
    OnErrorOk(db1, w.mail, Call(w.db.tenantId, w.mail, t), t);
  }

  lemma TakeKeepsSafe(w: World, step: Step)
    requires Safe(w)
    ensures Safe(Take(w, step))
  {
    hide Write, Next, Call, RowsOk, MailOk;
    match step
    case Spawn(t) =>
    case Run(tid, ans) =>
      if tid < |w.threads| {
        RunOk(w, tid, ans);
        IssueKeepsSafe(w, tid, ans, Next(w.db, w.mail, w.threads[tid], ans));
      }
    case FailBefore(tid) =>
      if tid < |w.threads| { OnErrorOk(w.db, w.mail, w.mail, w.threads[tid]); }
    case FailAfter(tid, ans) =>
      if tid < |w.threads| {
        FailOk(w, tid, ans);
        IssueKeepsSafe(w, tid, ans, OnError(w.threads[tid]));
      }
    case Crash(tid) =>
    case SetPaused(p) => PauseKeepsSafe(w, p);
  }

  lemma PauseKeepsSafe(w: World, p: bool)
    requires Safe(w)
    ensures Safe(w.(db := w.db.(agentPaused := p)))
  {
    var db1 := w.db.(agentPaused := p);
    forall d | 0 <= d < |db1.drafts| ensures DraftOk(db1, db1.drafts[d]) { assert DraftOk(w.db, w.db.drafts[d]); }
    forall i | 0 <= i < |w.mail.sendCalls| ensures CallOk(db1, w.mail.sendCalls[i]) {
      CallOkStable(w.db, db1, w.mail.sendCalls[i]);
    }
    forall i | 0 <= i < |w.mail.delivered| ensures CallOk(db1, w.mail.delivered[i]) {
      CallOkStable(w.db, db1, w.mail.delivered[i]);
    }
    forall k | 0 <= k < |w.threads| ensures ThreadOk(db1, w.mail, w.threads[k]) {
      ThreadStable(w.db, w.mail, db1, w.mail, w.threads[k]);
    }
  }

  lemma {:induction false} EveryRunIsSafe(w: World, steps: seq<Step>)
    requires Safe(w)
    ensures Safe(TakeAll(w, steps))
  {
    if steps == [] {
    } else {
      EveryRunIsSafe(w, steps[..|steps| - 1]);
      TakeKeepsSafe(TakeAll(w, steps[..|steps| - 1]), steps[|steps| - 1]);
    }
  }
}
