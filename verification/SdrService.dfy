/**
 The AI SDR service as the source writes it: rows are read, checked and updated in place,
 one statement after the other. Each method is proved to have exactly the effect of its
 function in SdrCalls, on which the run theorems stand.
*/
module SdrService {
  import opened Wrappers
  import opened OutboundProvider
  import opened SdrModel
  import Calls = SdrCalls

  class AiSdrService {
    const tenantId: string
    const outbound: DeterministicOutboundProvider
    var agentPaused: bool
    var sequences: seq<Sequence>
    var drafts: seq<Draft>
    var approvals: seq<Approval>
    var messages: seq<Message>
    var replies: seq<ReplyRow>
    var bookings: seq<Booking>

    ghost function Rows(): Db
      reads this
    {
      Db(tenantId, agentPaused, sequences, drafts, approvals, messages, replies, bookings)
    }

    ghost function View(): Calls.Sdr
      reads this, outbound
    {
      Calls.Sdr(Rows(), outbound.View())
    }

    constructor (tenantId: string)
      ensures fresh(outbound) && View() == Calls.Initial(tenantId)
    {
      this.tenantId := tenantId;
      outbound := new DeterministicOutboundProvider();
      agentPaused := false;
      sequences, drafts, approvals, messages, replies, bookings := [], [], [], [], [], [];
    }

    /** updateMany over the ACTIVE approvals of a draft. */
    method RevokeActiveApprovals(d: nat) returns (count: nat)
      modifies this`approvals
      ensures Rows() == RevokeActive(old(Rows()), d)
      ensures count == 0 <==> !HasActive(old(Rows()), d)
    {
      count := 0;
      ghost var before := approvals;
      for i := 0 to |approvals|
        invariant |approvals| == |before|
        invariant forall k | 0 <= k < i :: approvals[k] == RevokeActive(old(Rows()), d).approvals[k]
        invariant forall k | i <= k < |before| :: approvals[k] == before[k]
        invariant count == 0 <==> forall k | 0 <= k < i :: before[k].draftId != d || !before[k].active
      {
        if approvals[i].draftId == d && approvals[i].active {
          approvals := approvals[i := approvals[i].(active := false)];
          count := count + 1;
        }
      }
      assert approvals == RevokeActive(old(Rows()), d).approvals;
    }

    /** Draft rows that a new draft of this purpose supersedes. */
    method FindPrior(q: nat, purpose: Purpose) returns (prior: seq<nat>)
      ensures forall p <- prior :: p < |drafts|
      ensures forall d | 0 <= d < |drafts| :: d in prior <==> Calls.IsPrior(drafts[d], q, purpose)
    {
      prior := [];
      for i := 0 to |drafts|
        invariant forall p <- prior :: p < i
        invariant forall d | 0 <= d < i :: d in prior <==> Calls.IsPrior(drafts[d], q, purpose)
      {
        if drafts[i].sequenceId == q && drafts[i].purpose == purpose && Open(drafts[i].status) {
          prior := prior + [i];
        }
      }
    }

    method Supersede(q: nat, purpose: Purpose)
      modifies this`drafts, this`approvals
      ensures Rows() == Calls.SupersedePrior(old(Rows()), q, purpose)
    {
      var prior := FindPrior(q, purpose);
      ghost var ds, aps := drafts, approvals;
      for k := 0 to |prior|
        invariant |drafts| == |ds| && |approvals| == |aps|
        invariant forall i | 0 <= i < |ds| ::
          drafts[i] == if i in prior[..k] then ds[i].(status := DraftSuperseded) else ds[i]
        invariant forall a | 0 <= a < |aps| ::
          approvals[a] == if aps[a].draftId in prior[..k] then aps[a].(active := false) else aps[a]
      {
        var p := prior[k];
        assert p in prior;
        drafts := drafts[p := drafts[p].(status := DraftSuperseded)];
        var _ := RevokeActiveApprovals(p);
        assert prior[..k + 1] == prior[..k] + [p];
      }
      assert prior[..|prior|] == prior;
      assert drafts == Calls.SupersedePrior(old(Rows()), q, purpose).drafts;
      assert approvals == Calls.SupersedePrior(old(Rows()), q, purpose).approvals;
    }

    method CreateDraft(q: nat, purpose: Purpose, env: Calls.DraftEnv) returns (outcome: Calls.Outcome)
      modifies this`sequences, this`drafts, this`approvals, this`bookings
      ensures (Rows(), outcome) == Calls.CreateDraft(old(Rows()), q, purpose, env)
    {
      hide Calls.SupersedePrior, MaxVersion, HashDraftContent;
      if agentPaused { return Calls.Refused(Calls.AgentPaused); }
      if q >= |sequences| { return Calls.Refused(Calls.NotFound); }
      var status := sequences[q].status;
      if Stopped(status) && status != SeqReplied { return Calls.Refused(Calls.SequenceStopped); }
      if status == SeqReplied && purpose == Outreach { return Calls.Refused(Calls.SequenceReplied); }
      if !env.researchOk { return Calls.Refused(Calls.ResearchUnavailable); }
      if purpose == Meeting {
        if !env.proposeOk { return Calls.Refused(Calls.ProviderFailed); }
        bookings := bookings + [Booking(q, Proposed)];
      }
      if env.text.None? { return Calls.Refused(Calls.GeneratorRejected); }
      var (subject, body) := env.text.value;
      var contentHash := HashDraftContent("email", purpose, Some(subject), body);
      Supersede(q, purpose);
      var version := MaxVersion(drafts, q) + 1;
      drafts := drafts + [Draft(q, version, purpose, "email", Some(subject), body, contentHash, DraftAwaiting)];
      MoveUnlessStopped(q, SeqAwaiting);
      return Calls.Done;
    }

    method MoveUnlessStopped(q: nat, status: SequenceStatus)
      modifies this`sequences
      ensures Rows() == MoveSequence(old(Rows()), q, status)
    {
      if q < |sequences| && !Stopped(sequences[q].status) {
        sequences := sequences[q := sequences[q].(status := status)];
      }
    }

    method CreateSequence(
        email: Option<string>, candidateOk: bool, researchOk: bool, draft: Option<Calls.DraftEnv>)
      returns (outcome: Calls.Outcome)
      modifies this`sequences, this`drafts, this`approvals, this`bookings
      ensures (Rows(), outcome) == Calls.CreateSequence(old(Rows()), email, candidateOk, researchOk, draft)
    {
      if agentPaused { return Calls.Refused(Calls.AgentPaused); }
      if !candidateOk { return Calls.Refused(Calls.CandidateNotReady); }
      if !researchOk { return Calls.Refused(Calls.ResearchUnavailable); }
      var q := |sequences|;
      sequences := sequences + [Sequence(SeqDrafting, email)];
      outcome := Calls.Done;
      if draft.Some? { outcome := CreateDraft(q, Outreach, draft.value); }
    }

    method ApproveDraft(d: nat) returns (outcome: Calls.Outcome)
      modifies this`sequences, this`drafts, this`approvals
      ensures (Rows(), outcome) == Calls.ApproveDraft(old(Rows()), d)
    {
      if d >= |drafts| { return Calls.Refused(Calls.NotFound); }
      var draft := drafts[d];
      if draft.status == DraftSuperseded { return Calls.Refused(Calls.DraftSupersededAlready); }
      if draft.status == DraftRejected { return Calls.Refused(Calls.DraftRejectedAlready); }
      if draft.status == DraftSent { return Calls.Refused(Calls.DraftSentAlready); }
      if LiveHash(draft) != draft.contentHash { return Calls.Refused(Calls.HashMismatch); }
      approvals := approvals + [Approval(d, draft.version, draft.contentHash, true)];
      drafts := drafts[d := draft.(status := DraftApproved)];
      MoveUnlessStopped(draft.sequenceId, SeqApproved);
      return Calls.Done;
    }

    method RevokeApproval(d: nat) returns (outcome: Calls.Outcome)
      modifies this`drafts, this`approvals
      ensures (Rows(), outcome) == Calls.RevokeApproval(old(Rows()), d)
    {
      if d >= |drafts| { return Calls.Refused(Calls.NotFound); }
      ghost var before := approvals;
      var count := RevokeActiveApprovals(d);
      if count == 0 {
        assert approvals == before;
        return Calls.Refused(Calls.NoActiveApproval);
      }
      drafts := drafts[d := drafts[d].(status := DraftAwaiting)];
      return Calls.Done;
    }

    method RejectDraft(d: nat) returns (outcome: Calls.Outcome)
      modifies this`drafts, this`approvals
      ensures (Rows(), outcome) == Calls.RejectDraft(old(Rows()), d)
    {
      if d >= |drafts| { return Calls.Refused(Calls.NotFound); }
      if drafts[d].status == DraftSent { return Calls.Refused(Calls.DraftSentAlready); }
      if drafts[d].status == DraftRejected { return Calls.Idempotent; }
      if drafts[d].status == DraftSuperseded { return Calls.Refused(Calls.DraftSupersededAlready); }
      var _ := RevokeActiveApprovals(d);
      drafts := drafts[d := drafts[d].(status := DraftRejected)];
      return Calls.Done;
    }

    method AssertSendAllowed(d: nat, candidateOk: bool) returns (r: Result<nat, Calls.Refusal>)
      ensures r == Calls.AssertSendAllowed(Rows(), d, candidateOk)
    {
      if d >= |drafts| || drafts[d].sequenceId >= |sequences| { return Err(Calls.NotFound); }
      var draft, sequence := drafts[d], sequences[drafts[d].sequenceId];
      if Stopped(sequence.status) { return Err(Calls.SequenceStopped); }
      if draft.status == DraftSuperseded { return Err(Calls.DraftSupersededAlready); }
      if draft.status == DraftRejected { return Err(Calls.DraftRejectedAlready); }
      if OrEmpty(sequence.targetEmail) == "" { return Err(Calls.NoTargetEmail); }
      var found := FindActive(approvals, d);
      if found.None? { return Err(Calls.NotApproved); }
      var approval := approvals[found.value];
      if approval.contentHash != draft.contentHash || approval.draftVersion != draft.version {
        return Err(Calls.ApprovalMismatch);
      }
      if LiveHash(draft) != approval.contentHash { return Err(Calls.HashMismatch); }
      if !candidateOk { return Err(Calls.CandidateNotReady); }
      return Ok(found.value);
    }

    method ExecuteSend(d: nat, env: Calls.SendEnv) returns (outcome: Calls.Outcome)
      modifies this`sequences, this`drafts, this`messages, outbound
      ensures (View(), outcome) == Calls.ExecuteSend(old(View()), d, env)
    {
      if agentPaused { return Calls.Refused(Calls.AgentPaused); }
      var gate := AssertSendAllowed(d, env.candidateOk);
      if gate.Err? { return Calls.Refused(gate.error); }
      var draft := drafts[d];
      var q, key := draft.sequenceId, KeyOf(tenantId, d, draft);
      var found := FindMessage(messages, key);
      var m := |messages|;
      if found.Some? {
        m := found.value;
        if messages[m].status == MsgSent { return Calls.Idempotent; }
      } else {
        messages := messages + [Message(q, d, gate.value, key, MsgQueued, None, SyncNone)];
      }
      outcome := Deliver(d, m, env);
    }

    /**
     The try block of a send: the provider call and the writes its answer decides. No other call
     runs between the gate and the provider here, so the live stop check cannot fire; SdrThreads
     models it, statement by statement.
    */
    method Deliver(d: nat, m: nat, env: Calls.SendEnv) returns (outcome: Calls.Outcome)
      requires d < |drafts| && drafts[d].sequenceId < |sequences| && m < |messages|
      requires !Stopped(sequences[drafts[d].sequenceId].status)
      modifies this`sequences, this`drafts, this`messages, outbound
      ensures (View(), outcome) == Calls.Deliver(old(View()), d, m, env)
    {
      var draft := drafts[d];
      var q := draft.sequenceId;
      messages := messages[m := messages[m].(status := MsgSending)];
      var input := SendInput(KeyOf(tenantId, d, draft), d, OrEmpty(sequences[q].targetEmail),
                             OrEmpty(draft.subject), draft.body, env.fixture);
      var answer := outbound.Send(input);
      if answer.None? {
        messages := messages[m := messages[m].(status := MsgFailed, crmSync := SyncNone)];
        assert messages == old(messages)[m := old(messages)[m].(status := MsgFailed, crmSync := SyncNone)];
        return Calls.Refused(Calls.ProviderFailed);
      }
      messages := messages[m := messages[m].(status := MsgSent, providerMessageId := answer, crmSync := SyncPending)];
      drafts := drafts[d := drafts[d].(status := DraftSent)];
      MoveUnlessStopped(q, SeqActive);
      // A failing CRM sync only marks the sync, never the send.
      var crm := if env.crmOk then SyncCompleted else SyncFailed;
      messages := messages[m := messages[m].(crmSync := crm)];
      assert messages
        == old(messages)[m := old(messages)[m].(status := MsgSent, providerMessageId := answer, crmSync := crm)];
      return Calls.Done;
    }

    method IngestReply(e: ReplyEvent, replyEnv: Calls.DraftEnv, meetingEnv: Calls.DraftEnv)
      returns (outcome: Calls.Outcome)
      modifies this`sequences, this`drafts, this`approvals, this`bookings, this`replies
      ensures (Rows(), outcome) == Calls.IngestReply(old(Rows()), e, replyEnv, meetingEnv)
    {
      if SeenReply(replies, e.providerEventId) { return Calls.Idempotent; }
      if e.fromWebhook && e.providerMessageId.None? { return Calls.Refused(Calls.CorrelationRequired); }
      var q, message: Option<nat> := 0, None;
      if e.providerMessageId.Some? {
        message := FindByProviderId(messages, e.providerMessageId.value);
        if message.None? { return Calls.Refused(Calls.NotFound); }
        q := messages[message.value].sequenceId;
        if e.sequenceId.Some? && e.sequenceId.value != q { return Calls.Refused(Calls.CorrelationMismatch); }
      } else if e.sequenceId.Some? {
        q := e.sequenceId.value;
      } else {
        return Calls.Refused(Calls.CorrelationRequired);
      }
      if q >= |sequences| { return Calls.Refused(Calls.NotFound); }
      replies := replies + [ReplyRow(q, message, e.providerEventId, e.classification)];
      sequences := sequences[q := sequences[q].(status := ReplyStatus(e.classification))];
      outcome := Calls.Done;
      if (e.classification == Positive || e.classification == Question) && !agentPaused {
        outcome := CreateDraft(q, Reply, replyEnv);
        if !outcome.Refused? && e.classification == Positive {
          outcome := CreateDraft(q, Meeting, meetingEnv);
        }
      }
    }

    method ConfirmMeeting(q: nat, confirmOk: bool) returns (outcome: Calls.Outcome)
      modifies this`sequences, this`bookings
      ensures (Rows(), outcome) == Calls.ConfirmMeeting(old(Rows()), q, confirmOk)
    {
      if q >= |sequences| { return Calls.Refused(Calls.NotFound); }
      var found := FindBooking(bookings, q);
      if found.None? { return Calls.Refused(Calls.NoBooking); }
      if sequences[q].status == SeqCancelled { return Calls.Refused(Calls.SequenceIsCancelled); }
      if !confirmOk { return Calls.Refused(Calls.ProviderFailed); }
      bookings := bookings[found.value := bookings[found.value].(status := Booked)];
      sequences := sequences[q := sequences[q].(status := SeqCompleted)];
      return Calls.Done;
    }
  }
}
