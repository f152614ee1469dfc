/** What the coherence invariant means to a reader of the tables, over every run of calls. */
module SdrTheorems {
  import opened Wrappers
  import opened OutboundProvider
  import opened SdrModel
  import opened SdrRows
  import opened SdrCalls
  import opened SdrCoherence

  ghost predicate Reachable(s: Sdr)
  {
    exists tenantId, calls :: s == Run(Initial(tenantId), calls)
  }

  lemma ReachableInv(s: Sdr)
    requires Reachable(s)
    ensures Inv(s)
  {
    var tenantId, calls :| s == Run(Initial(tenantId), calls);
    RunKeeps(Initial(tenantId), calls);
  }

  lemma ReachableThen(s: Sdr, c: Call)
    requires Reachable(s)
    ensures Reachable(Apply(s, c).0)
  {
    var tenantId, calls :| s == Run(Initial(tenantId), calls);
    assert (calls + [c])[..|calls|] == calls;
    assert Run(Initial(tenantId), calls + [c]) == Apply(s, c).0;
  }

  /** In every reachable state a draft has an ACTIVE approval exactly when it is APPROVED or SENT. */
  lemma ApprovalTracksStatus(s: Sdr, d: nat)
    requires Reachable(s) && d < |s.db.drafts|
    ensures HasActive(s.db, d) <==> s.db.drafts[d].status in {DraftApproved, DraftSent}
  {
    ReachableInv(s);
    assert ApprovalAgrees(s.db, d);
  }

  // ----------------------------------------------------- what one call moves

  /** Draft content never changes, the tables only grow, and REJECTED and SUPERSEDED stay. */
  ghost predicate Advances(a: Db, b: Db)
  {
    && Grows(a.drafts, b.drafts)
    && (forall d | 0 <= d < |a.drafts| && Final(a.drafts[d].status) :: b.drafts[d].status == a.drafts[d].status)
    && |a.sequences| <= |b.sequences|
    && a.replies <= b.replies
    && b.tenantId == a.tenantId
  }

  lemma AdvancesTransitive(a: Db, b: Db, c: Db)
    requires Advances(a, b) && Advances(b, c)
    ensures Advances(a, c)
  {
    forall d | 0 <= d < |a.drafts| ensures c.drafts[d] == a.drafts[d].(status := c.drafts[d].status) {
      assert b.drafts[d] == a.drafts[d].(status := b.drafts[d].status);
    }
  }

  lemma InsertLatestAdvances(db: Db, q: nat, purpose: Purpose, text: (string, string))
    ensures Advances(db, InsertLatest(db, q, purpose, text))
  {}

  lemma SupersedeAdvances(db: Db, q: nat, purpose: Purpose)
    ensures Advances(db, SupersedePrior(db, q, purpose))
  {}

  lemma InsertNextAdvances(db: Db, q: nat, purpose: Purpose, text: (string, string))
    ensures Advances(db, InsertNextDraft(db, q, purpose, text))
  {
    var db1 := SupersedePrior(db, q, purpose);
    SupersedeAdvances(db, q, purpose);
    InsertLatestAdvances(db1, q, purpose, text);
    AdvancesTransitive(db, db1, InsertLatest(db1, q, purpose, text));
  }

  lemma CreateDraftAdvances(db: Db, q: nat, purpose: Purpose, env: DraftEnv)
    ensures Advances(db, CreateDraft(db, q, purpose, env).0)
  {
    if CreateDraft(db, q, purpose, env).1.Done? {
      var db1 := if purpose == Meeting then InsertBooking(db, q) else db;
      assert Advances(db, db1);
      InsertNextAdvances(db1, q, purpose, env.text.value);
      AdvancesTransitive(db, db1, InsertNextDraft(db1, q, purpose, env.text.value));
    }
  }

  lemma ReplyAdvances(db: Db, e: ReplyEvent, replyEnv: DraftEnv, meetingEnv: DraftEnv)
    ensures Advances(db, IngestReply(db, e, replyEnv, meetingEnv).0)
  {
    var found := Correlate(db, e);
    if !SeenReply(db.replies, e.providerEventId) && found.Ok? {
      var (q, m) := found.value;
      var db1 := SetSequence(InsertReply(db, q, m, e.providerEventId, e.classification), q, ReplyStatus(e.classification));
      assert Advances(db, db1);
      var db2 := CreateDraft(db1, q, Reply, replyEnv).0;
      CreateDraftAdvances(db1, q, Reply, replyEnv);
      CreateDraftAdvances(db2, q, Meeting, meetingEnv);
      AdvancesTransitive(db, db1, db2);
      AdvancesTransitive(db, db2, CreateDraft(db2, q, Meeting, meetingEnv).0);
    }
  }

  /** A revoke cannot reopen a final draft: coherence says it has no active approval to revoke. */
  lemma RevokeAdvances(db: Db, d: nat)
    requires ApprovalCoherent(db)
    ensures Advances(db, RevokeApproval(db, d).0)
  {
    if d < |db.drafts| { assert ApprovalAgrees(db, d); }
  }

  lemma SendAdvances(s: Sdr, d: nat, env: SendEnv)
    ensures Advances(s.db, ExecuteSend(s, d, env).0.db)
    ensures ExecuteSend(s, d, env).0.db.approvals == s.db.approvals
  {
    hide Deliver, Advances;
    var gate := AssertSendAllowed(s.db, d, env.candidateOk);
    if !s.db.agentPaused && gate.Ok? {
      var key := KeyOf(s.db.tenantId, d, s.db.drafts[d]);
      var found := FindMessage(s.db.messages, key);
      var db1 := InsertMessage(s.db, s.db.drafts[d].sequenceId, d, gate.value, key);
      assert !Final(s.db.drafts[d].status);
      SameAdvances(s.db, s.db);
      hide AssertSendAllowed, FindMessage;
      if found.Some? {
        DeliverAdvances(s, s.db, d, found.value, env);
      } else {
        SameAdvances(s.db, db1);
        DeliverAdvances(s.(db := db1), s.db, d, |s.db.messages|, env);
      }
    } else {
      SameAdvances(s.db, s.db);
    }
  }

  lemma SameAdvances(a: Db, b: Db)
    requires b == a.(messages := b.messages)
    ensures Advances(a, b)
  {}

  /** A delivery moves on from whatever the drafts were the same in. */
  lemma DeliverAdvances(s: Sdr, db: Db, d: nat, m: nat, env: SendEnv)
    requires d < |s.db.drafts| && s.db.drafts[d].sequenceId < |s.db.sequences| && m < |s.db.messages|
    requires Advances(db, s.db) && s.db.drafts == db.drafts && !Final(db.drafts[d].status)
    ensures Advances(db, Deliver(s, d, m, env).0.db)
    ensures Deliver(s, d, m, env).0.db.approvals == s.db.approvals
  {
    hide SendEmail, SendInputOf;
  }

  lemma CreateSequenceAdvances(db: Db, email: Option<string>, candidateOk: bool, researchOk: bool, draft: Option<DraftEnv>)
    ensures Advances(db, CreateSequence(db, email, candidateOk, researchOk, draft).0)
  {
    var db1 := db.(sequences := db.sequences + [Sequence(SeqDrafting, email)]);
    assert Advances(db, db1);
    if draft.Some? {
      CreateDraftAdvances(db1, |db.sequences|, Outreach, draft.value);
      AdvancesTransitive(db, db1, CreateDraft(db1, |db.sequences|, Outreach, draft.value).0);
    }
  }

  lemma ApproveAdvances(db: Db, d: nat)
    ensures Advances(db, ApproveDraft(db, d).0)
  {}

  lemma RejectAdvances(db: Db, d: nat)
    ensures Advances(db, RejectDraft(db, d).0)
  {}

  lemma ApplyAdvances(s: Sdr, c: Call)
    requires ApprovalCoherent(s.db)
    ensures Advances(s.db, Apply(s, c).0.db)
  {
    match c
    case CallCreateSequence(email, candidateOk, researchOk, draft) =>
      CreateSequenceAdvances(s.db, email, candidateOk, researchOk, draft);
    case CallCreateDraft(q, purpose, env) => CreateDraftAdvances(s.db, q, purpose, env);
    case CallApprove(d) => ApproveAdvances(s.db, d);
    case CallRevoke(d) => RevokeAdvances(s.db, d);
    case CallReject(d) => RejectAdvances(s.db, d);
    case CallSend(d, env) => SendAdvances(s, d, env);
    case CallReply(e, replyEnv, meetingEnv) => ReplyAdvances(s.db, e, replyEnv, meetingEnv);
    case CallConfirm(q, ok) =>
    case CallSetPaused(p) =>
  }

  lemma {:induction false} RunAdvances(s: Sdr, calls: seq<Call>)
    requires Inv(s)
    ensures Advances(s.db, Run(s, calls).db)
  {
    if calls == [] {
    } else {
      var before := Run(s, calls[..|calls| - 1]);
      RunAdvances(s, calls[..|calls| - 1]);
      RunKeeps(s, calls[..|calls| - 1]);
      ApplyAdvances(before, calls[|calls| - 1]);
      AdvancesTransitive(s.db, before.db, Run(s, calls).db);
    }
  }

  /** REJECTED and SUPERSEDED are absorbing in every run from every reachable state. */
  lemma FinalDraftsStay(s: Sdr, more: seq<Call>, d: nat)
    requires Reachable(s) && d < |s.db.drafts| && Final(s.db.drafts[d].status)
    ensures d < |Run(s, more).db.drafts| && Run(s, more).db.drafts[d] == s.db.drafts[d]
  {
    ReachableInv(s);
    RunAdvances(s, more);
  }

  // ---------------------------------------------------------- draft versions

  lemma {:induction false} CountBound(drafts: seq<Draft>, q: nat, d: nat)
    requires d < |drafts|
    ensures CountOf(drafts[..d + 1], q) <= CountOf(drafts, q)
    ensures drafts[d].sequenceId == q ==> CountOf(drafts[..d], q) + 1 == CountOf(drafts[..d + 1], q)
  {
    assert drafts[..d + 1][..d] == drafts[..d];
    if d + 1 == |drafts| {
      assert drafts[..d + 1] == drafts;
    } else {
      CountBound(drafts[..|drafts| - 1], q, d);
      assert drafts[..|drafts| - 1][..d + 1] == drafts[..d + 1];
    }
  }

  /** Some draft of q brings the count to each value it passes. */
  lemma {:induction false} CountReaches(drafts: seq<Draft>, q: nat, v: nat) returns (d: nat)
    requires 1 <= v <= CountOf(drafts, q)
    ensures d < |drafts| && drafts[d].sequenceId == q && CountOf(drafts[..d + 1], q) == v
  {
    var n := |drafts| - 1;
    if v <= CountOf(drafts[..n], q) {
      d := CountReaches(drafts[..n], q, v);
      assert drafts[..n][..d + 1] == drafts[..d + 1];
    } else {
      d := n;
      assert drafts[..n + 1] == drafts;
    }
  }

  ghost function VersionsOf(drafts: seq<Draft>, q: nat): set<nat>
  {
    set d | 0 <= d < |drafts| && drafts[d].sequenceId == q :: drafts[d].version
  }

  /** In every reachable state the versions of a sequence's n drafts are exactly 1..n, in order of creation. */
  lemma VersionsAreOneToN(s: Sdr, q: nat)
    requires Reachable(s)
    ensures var drafts := s.db.drafts;
      && (forall v: nat :: v in VersionsOf(drafts, q) <==> 1 <= v <= CountOf(drafts, q))
      && (forall d, e | 0 <= d < e < |drafts| && drafts[d].sequenceId == q && drafts[e].sequenceId == q ::
            drafts[d].version < drafts[e].version)
  {
    ReachableInv(s);
    VersionsInOrder(s.db.drafts, q);
  }

  lemma VersionsInOrder(drafts: seq<Draft>, q: nat)
    requires VersionsExact(drafts)
    ensures forall v: nat :: v in VersionsOf(drafts, q) <==> 1 <= v <= CountOf(drafts, q)
    ensures forall d, e | 0 <= d < e < |drafts| && drafts[d].sequenceId == q && drafts[e].sequenceId == q ::
      drafts[d].version < drafts[e].version
  {
    forall d | 0 <= d < |drafts| && drafts[d].sequenceId == q ensures 1 <= drafts[d].version <= CountOf(drafts, q) {
      assert VersionExact(drafts, d);
      CountBound(drafts, q, d);
    }
    forall v: nat | 1 <= v <= CountOf(drafts, q) ensures v in VersionsOf(drafts, q) {
      var d := CountReaches(drafts, q, v);
      assert VersionExact(drafts, d);
    }
    forall d, e | 0 <= d < e < |drafts| && drafts[d].sequenceId == q && drafts[e].sequenceId == q
      ensures drafts[d].version < drafts[e].version
    {
      assert VersionExact(drafts, d) && VersionExact(drafts, e);
      CountBound(drafts[..e], q, d);
      assert drafts[..e][..d + 1] == drafts[..d + 1];
      CountBound(drafts, q, e);
    }
  }

  /** Each (sequence, purpose) has at most one open draft without a SENT message, in every reachable state. */
  lemma OneOpenDraft(s: Sdr, d: nat, e: nat)
    requires Reachable(s) && d < |s.db.drafts| && e < |s.db.drafts|
    requires OpenUnsent(s.db, d) && OpenUnsent(s.db, e)
    requires s.db.drafts[d].sequenceId == s.db.drafts[e].sequenceId && s.db.drafts[d].purpose == s.db.drafts[e].purpose
    ensures d == e
  {
    ReachableInv(s);
  }

  // ------------------------------------------------- what the provider is sent

  lemma OthersNeverCall(s: Sdr, c: Call)
    requires !c.CallSend?
    ensures Apply(s, c).0.mail == s.mail
  {
    hide CreateSequence, CreateDraft, ApproveDraft, RevokeApproval, RejectDraft, IngestReply, ConfirmMeeting;
  }

  /** A send makes at most one provider call, of the draft's own content. */
  lemma SendCalls(s: Sdr, d: nat, env: SendEnv)
    ensures var calls' := ExecuteSend(s, d, env).0.mail.sendCalls;
      calls' == s.mail.sendCalls || (AssertSendAllowed(s.db, d, env.candidateOk).Ok?
        && calls' == s.mail.sendCalls + [SendInputOf(s.db, d, env.fixture)])
  {
    var gate := AssertSendAllowed(s.db, d, env.candidateOk);
    if gate.Ok? {
      var key := KeyOf(s.db.tenantId, d, s.db.drafts[d]);
      var db1 := InsertMessage(s.db, s.db.drafts[d].sequenceId, d, gate.value, key);
      assert SendInputOf(db1, d, env.fixture) == SendInputOf(s.db, d, env.fixture);
    }
  }

  lemma SendIsCovered(s: Sdr, d: nat, env: SendEnv)
    requires RowsOk(s.db)
    ensures var calls, calls' := s.mail.sendCalls, ExecuteSend(s, d, env).0.mail.sendCalls;
      calls' == calls || (|calls'| == |calls| + 1 && calls <= calls'
        && exists a :: 0 <= a < |s.db.approvals| && s.db.approvals[a].active && Covers(s.db, a, calls'[|calls|]))
  {
    SendCalls(s, d, env);
    var gate := AssertSendAllowed(s.db, d, env.candidateOk);
    if gate.Ok? {
      assert ApprovalOk(s.db.drafts, s.db.approvals[gate.value]) && DraftOk(s.db, s.db.drafts[d]);
      assert Covers(s.db, gate.value, SendInputOf(s.db, d, env.fixture));
    }
  }

  /** Each provider call is covered by an approval row that is ACTIVE before the call and after it. */
  lemma SendIsApproved(s: Sdr, c: Call)
    requires Reachable(s)
    ensures var s' := Apply(s, c).0; var calls, calls' := s.mail.sendCalls, s'.mail.sendCalls;
      calls' == calls || (|calls'| == |calls| + 1 && calls <= calls' && s'.db.approvals == s.db.approvals
        && exists a :: 0 <= a < |s.db.approvals| && s.db.approvals[a].active && Covers(s.db, a, calls'[|calls|]))
  {
    ReachableInv(s);
    if c.CallSend? {
      SendIsCovered(s, c.d, c.sendEnv);
      SendAdvances(s, c.d, c.sendEnv);
    }
  }

  lemma GateNeverMismatches(db: Db, d: nat, candidateOk: bool)
    requires RowsOk(db)
    ensures AssertSendAllowed(db, d, candidateOk) !in {Err(HashMismatch), Err(ApprovalMismatch)}
  {
    if d < |db.drafts| {
      assert DraftOk(db, db.drafts[d]);
      var a := FindActive(db.approvals, d);
      if a.Some? { assert ApprovalOk(db.drafts, db.approvals[a.value]); }
    }
  }

  /** In a reachable state no approve or send ever answers with a hash or version mismatch. */
  lemma MismatchUnreachable(s: Sdr, d: nat, env: SendEnv)
    requires Reachable(s)
    ensures ApproveDraft(s.db, d).1 != Refused(HashMismatch)
    ensures ExecuteSend(s, d, env).1 !in {Refused(HashMismatch), Refused(ApprovalMismatch)}
  {
    ReachableInv(s);
    assert RowsOk(s.db);
    hide Reachable, Inv, RowsOk, ApproveDraft, ExecuteSend;
    ApproveNeverMismatches(s.db, d);
    SendNeverMismatches(s, d, env);
  }

  lemma ApproveNeverMismatches(db: Db, d: nat)
    requires RowsOk(db)
    ensures ApproveDraft(db, d).1 != Refused(HashMismatch)
  {
    if d < |db.drafts| { assert DraftOk(db, db.drafts[d]); }
  }

  lemma SendNeverMismatches(s: Sdr, d: nat, env: SendEnv)
    requires RowsOk(s.db)
    ensures ExecuteSend(s, d, env).1 !in {Refused(HashMismatch), Refused(ApprovalMismatch)}
  {
    GateNeverMismatches(s.db, d, env.candidateOk);
    hide AssertSendAllowed, RowsOk, Deliver, InsertMessage, FindMessage;
    forall s: Sdr, m: nat, env | d < |s.db.drafts| && s.db.drafts[d].sequenceId < |s.db.sequences| && m < |s.db.messages|
      ensures Deliver(s, d, m, env).1 in {Done, Refused(ProviderFailed)}
    {
      DeliverAnswers(s, d, m, env);
    }
  }

  lemma DeliverAnswers(s: Sdr, d: nat, m: nat, env: SendEnv)
    requires d < |s.db.drafts| && s.db.drafts[d].sequenceId < |s.db.sequences| && m < |s.db.messages|
    ensures Deliver(s, d, m, env).1 in {Done, Refused(ProviderFailed)}
  {
    hide SendEmail, SendInputOf;
  }

  // -------------------------------------------------------- replies and pause

  /** At most one message row carries a provider id, so correlating by it is unambiguous. */
  lemma ProviderIdIdentifiesMessage(s: Sdr, m: nat, n: nat)
    requires Reachable(s) && m < |s.db.messages| && n < |s.db.messages|
    requires s.db.messages[m].providerMessageId.Some?
    requires s.db.messages[m].providerMessageId == s.db.messages[n].providerMessageId
    ensures m == n
  {
    ReachableInv(s);
    assert MessageRecorded(s.mail, s.db.messages[m]) && MessageRecorded(s.mail, s.db.messages[n]);
  }

  lemma CreateDraftOnStopped(db: Db, q: nat, purpose: Purpose, env: DraftEnv)
    requires q < |db.sequences| && Stopped(db.sequences[q].status)
    ensures CreateDraft(db, q, purpose, env).0.sequences == db.sequences
  {}

  /** A new correlated reply moves exactly its own sequence, into a stop status, paused or not. */
  lemma ReplyStopsItsSequence(db: Db, e: ReplyEvent, replyEnv: DraftEnv, meetingEnv: DraftEnv)
    requires !SeenReply(db.replies, e.providerEventId) && Correlate(db, e).Ok?
    ensures var q := Correlate(db, e).value.0; var db' := IngestReply(db, e, replyEnv, meetingEnv).0;
      && Stopped(ReplyStatus(e.classification))
      && db'.sequences == db.sequences[q := db.sequences[q].(status := ReplyStatus(e.classification))]
      && (e.providerMessageId.Some? ==>
            exists m :: 0 <= m < |db.messages| && db.messages[m].providerMessageId == e.providerMessageId
              && db.messages[m].sequenceId == q)
      && SeenReply(db'.replies, e.providerEventId)
  {
    var (q, m) := Correlate(db, e).value;
    var db1 := SetSequence(InsertReply(db, q, m, e.providerEventId, e.classification), q, ReplyStatus(e.classification));
    assert db1.replies[|db.replies|].providerEventId == e.providerEventId;
    CreateDraftOnStopped(db1, q, Reply, replyEnv);
    CreateDraftOnStopped(CreateDraft(db1, q, Reply, replyEnv).0, q, Meeting, meetingEnv);
    CreateDraftAdvances(db1, q, Reply, replyEnv);
    CreateDraftAdvances(CreateDraft(db1, q, Reply, replyEnv).0, q, Meeting, meetingEnv);
    var db' := IngestReply(db, e, replyEnv, meetingEnv).0;
    assert db'.replies[|db.replies|].providerEventId == e.providerEventId;
  }

  /** Once an event id is recorded, replaying it after any further run changes nothing. */
  lemma RepeatedEventChangesNothing(s: Sdr, more: seq<Call>, e: ReplyEvent, replyEnv: DraftEnv, meetingEnv: DraftEnv)
    requires Reachable(s) && SeenReply(s.db.replies, e.providerEventId)
    ensures Apply(Run(s, more), CallReply(e, replyEnv, meetingEnv)) == (Run(s, more), Idempotent)
  {
    ReachableInv(s);
    RunAdvances(s, more);
    SeenStays(s.db.replies, Run(s, more).db.replies, e.providerEventId);
    hide Inv, Advances, Run, SeenReply;
  }

  lemma SeenStays(a: seq<ReplyRow>, b: seq<ReplyRow>, eventId: string)
    requires a <= b && SeenReply(a, eventId)
    ensures SeenReply(b, eventId)
  {
    var i :| 0 <= i < |a| && a[i].providerEventId == eventId;
    assert b[i].providerEventId == eventId;
  }

  lemma PausedCall(s: Sdr, c: Call)
    requires s.db.agentPaused && c != CallSetPaused(false)
    ensures var s' := Apply(s, c).0;
      s'.db.agentPaused && |s'.db.drafts| == |s.db.drafts| && s'.db.messages == s.db.messages && s'.mail == s.mail
  {
    hide Correlate, InsertNextDraft, Deliver, AssertSendAllowed, HasActive;
  }

  /** While ai_sdr is paused a run adds no draft, no message and no provider call. */
  lemma {:induction false} PauseBlocksOutbound(s: Sdr, calls: seq<Call>)
    requires s.db.agentPaused && forall i | 0 <= i < |calls| :: calls[i] != CallSetPaused(false)
    ensures var s' := Run(s, calls);
      s'.db.agentPaused && |s'.db.drafts| == |s.db.drafts| && s'.db.messages == s.db.messages && s'.mail == s.mail
  {
    if calls == [] {
    } else {
      PauseBlocksOutbound(s, calls[..|calls| - 1]);
      PausedCall(Run(s, calls[..|calls| - 1]), calls[|calls| - 1]);
      hide Apply;
    }
  }
}
