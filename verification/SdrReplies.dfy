/** What an inbound reply and a meeting confirmation decide, and what follows for the rest of the sequence's life. */
module SdrReplies {
  import opened Wrappers
  import opened OutboundProvider
  import opened SdrModel
  import opened SdrRows
  import opened SdrCalls
  import opened SdrCoherence
  import opened SdrTheorems
  import opened SdrOutcomes

  // ---------------------------------------------------------------- correlation

  /** The event belongs to sequence q: by the message its id is stored on, or, from a trusted caller without an id, by name. */
  ghost predicate BelongsTo(db: Db, e: ReplyEvent, q: nat)
  {
    q < |db.sequences| && match e.providerMessageId
      case Some(p) =>
        && e.sequenceId in {None, Some(q)}
        && exists m | 0 <= m < |db.messages| :: db.messages[m].providerMessageId == Some(p) && db.messages[m].sequenceId == q
      case None => !e.fromWebhook && e.sequenceId == Some(q)
  }

  /** In every reachable state an event correlates to a sequence exactly when it belongs to it. */
  lemma CorrelatesExactlyWhen(s: Sdr, e: ReplyEvent, q: nat)
    requires Reachable(s)
    ensures Correlate(s.db, e).Ok? && Correlate(s.db, e).value.0 == q <==> BelongsTo(s.db, e, q)
  {
    hide Reachable, FindByProviderId;
    if e.providerMessageId.Some? {
      FoundExactlyWhen(s, e.providerMessageId.value, q);
      CorrelatesByMessage(s.db, e, q);
      hide Correlate;
    }
  }

  lemma FoundExactlyWhen(s: Sdr, p: ProviderMessageId, q: nat)
    requires Reachable(s)
    ensures var found := FindByProviderId(s.db.messages, p);
      (found.Some? && s.db.messages[found.value].sequenceId == q)
      == (exists m | 0 <= m < |s.db.messages| :: s.db.messages[m].providerMessageId == Some(p) && s.db.messages[m].sequenceId == q)
  {
    hide Reachable, FindByProviderId;
    var found := FindByProviderId(s.db.messages, p);
    if m :| 0 <= m < |s.db.messages| && s.db.messages[m].providerMessageId == Some(p) && s.db.messages[m].sequenceId == q {
      ProviderIdIdentifiesMessage(s, m, found.value);
    }
  }

  lemma CorrelatesByMessage(db: Db, e: ReplyEvent, q: nat)
    requires e.providerMessageId.Some?
    ensures var found := FindByProviderId(db.messages, e.providerMessageId.value);
      (Correlate(db, e).Ok? && Correlate(db, e).value.0 == q)
      == (found.Some? && db.messages[found.value].sequenceId == q && e.sequenceId in {None, Some(q)} && q < |db.sequences|)
  {
    hide FindByProviderId;
  }

  // ---------------------------------------------------------- what a reply does

  /** CANCELLED for an opt-out or a no, REPLIED for everything else. */
  lemma ReplyStatusExactlyWhen(c: Classification)
    ensures ReplyStatus(c) == SeqCancelled <==> c in {Unsubscribe, Negative}
    ensures ReplyStatus(c) == SeqReplied <==> c in {Positive, Question, NotNow, OutOfOffice, Unknown}
  {
    assert c.Positive? || c.Negative? || c.Question? || c.NotNow? || c.OutOfOffice? || c.Unsubscribe? || c.Unknown?;
  }

  /** A new event that belongs to q is recorded, and leaves q CANCELLED or REPLIED whatever it was, everyone else alone. */
  lemma ReplyDecides(s: Sdr, e: ReplyEvent, q: nat, replyEnv: DraftEnv, meetingEnv: DraftEnv)
    requires Reachable(s) && !SeenReply(s.db.replies, e.providerEventId) && BelongsTo(s.db, e, q)
    ensures var db' := IngestReply(s.db, e, replyEnv, meetingEnv).0;
      && OnlySequence(s.db, db', q, if e.classification in {Unsubscribe, Negative} then SeqCancelled else SeqReplied)
      && |db'.replies| == |s.db.replies| + 1 && s.db.replies <= db'.replies
      && db'.replies[|s.db.replies|].sequenceId == q
      && db'.replies[|s.db.replies|].providerEventId == e.providerEventId
      && db'.replies[|s.db.replies|].classification == e.classification
      && db'.messages == s.db.messages
  {
    CorrelatesExactlyWhen(s, e, q);
    ReplyStatusExactlyWhen(e.classification);
    ReplyStopsItsSequence(s.db, e, replyEnv, meetingEnv);
    ReplyRowWritten(s.db, e, replyEnv, meetingEnv);
    hide IngestReply, Reachable, BelongsTo, Correlate;
  }

  lemma ReplyRowWritten(db: Db, e: ReplyEvent, replyEnv: DraftEnv, meetingEnv: DraftEnv)
    requires !SeenReply(db.replies, e.providerEventId) && Correlate(db, e).Ok?
    ensures var (q, m) := Correlate(db, e).value; var db' := IngestReply(db, e, replyEnv, meetingEnv).0;
      && db'.replies == db.replies + [ReplyRow(q, m, e.providerEventId, e.classification)]
      && db'.messages == db.messages
  {
    var (q, m) := Correlate(db, e).value;
    var db1 := SetSequence(InsertReply(db, q, m, e.providerEventId, e.classification), q, ReplyStatus(e.classification));
    DraftLeavesReplies(db1, q, Reply, replyEnv);
    DraftLeavesReplies(CreateDraft(db1, q, Reply, replyEnv).0, q, Meeting, meetingEnv);
    hide CreateDraft, Correlate;
  }

  lemma DraftLeavesReplies(db: Db, q: nat, purpose: Purpose, env: DraftEnv)
    ensures CreateDraft(db, q, purpose, env).0.replies == db.replies && CreateDraft(db, q, purpose, env).0.messages == db.messages
  {}

  /** An event that was seen before, or belongs to no sequence, changes nothing. */
  lemma OtherEventsChangeNothing(s: Sdr, e: ReplyEvent, replyEnv: DraftEnv, meetingEnv: DraftEnv)
    requires Reachable(s)
    requires SeenReply(s.db.replies, e.providerEventId) || forall q :: !BelongsTo(s.db, e, q)
    ensures IngestReply(s.db, e, replyEnv, meetingEnv).0 == s.db
  {
    if !SeenReply(s.db.replies, e.providerEventId) && Correlate(s.db, e).Ok? {
      CorrelatesExactlyWhen(s, e, Correlate(s.db, e).value.0);
      assert false;
    }
    hide Correlate, AdaptDrafts;
  }

  // ------------------------------------------------------- the suggested drafts

  /** Nothing stands in the way of a draft in reply. */
  predicate Good(env: DraftEnv)
  {
    env.researchOk && env.proposeOk && env.text.Some?
  }

  /**
   After a positive reply, with the agent active and all answers good, two drafts wait for
   approval, the answer and then the meeting proposal, with its booking proposed.
  */
  lemma PositiveDraftsBoth(s: Sdr, e: ReplyEvent, q: nat, replyEnv: DraftEnv, meetingEnv: DraftEnv)
    requires Reachable(s) && !SeenReply(s.db.replies, e.providerEventId) && BelongsTo(s.db, e, q)
    requires e.classification == Positive && !s.db.agentPaused && Good(replyEnv) && Good(meetingEnv)
    ensures var db' := IngestReply(s.db, e, replyEnv, meetingEnv).0; var n := |s.db.drafts|;
      && |db'.drafts| == n + 2
      && Suggested(db'.drafts[n], q, Reply, replyEnv.text.value)
      && Suggested(db'.drafts[n + 1], q, Meeting, meetingEnv.text.value)
      && db'.bookings == s.db.bookings + [Booking(q, Proposed)]
  {
    CorrelatesExactlyWhen(s, e, q);
    var m := Correlate(s.db, e).value.1;
    var db1 := SetSequence(InsertReply(s.db, q, m, e.providerEventId, Positive), q, SeqReplied);
    ReplyStatusExactlyWhen(Positive);
    BothDrafted(db1, q, replyEnv, meetingEnv);
    hide CreateDraft, Correlate, BelongsTo, Reachable;
  }

  /** The row is a draft of this text and purpose, waiting for approval. */
  predicate Suggested(row: Draft, q: nat, purpose: Purpose, text: (string, string))
  {
    && row.sequenceId == q && row.purpose == purpose && row.status == DraftAwaiting
    && row.channel == "email" && row.subject == Some(text.0) && row.body == text.1
  }

  lemma BothDrafted(db: Db, q: nat, replyEnv: DraftEnv, meetingEnv: DraftEnv)
    requires q < |db.sequences| && db.sequences[q].status == SeqReplied && !db.agentPaused && Good(replyEnv) && Good(meetingEnv)
    ensures var (db1, o1) := CreateDraft(db, q, Reply, replyEnv);
      var (db2, o2) := CreateDraft(db1, q, Meeting, meetingEnv); var n := |db.drafts|;
      && o1 == Done && o2 == Done
      && |db2.drafts| == n + 2
      && Suggested(db2.drafts[n], q, Reply, replyEnv.text.value)
      && Suggested(db2.drafts[n + 1], q, Meeting, meetingEnv.text.value)
      && db2.bookings == db.bookings + [Booking(q, Proposed)]
  {
    DraftMadeExactlyWhen(db, q, Reply, replyEnv);
    DraftMade(db, q, Reply, replyEnv);
    PauseStays(db, q, Reply, replyEnv);
    var db1 := CreateDraft(db, q, Reply, replyEnv).0;
    DraftMadeExactlyWhen(db1, q, Meeting, meetingEnv);
    DraftMade(db1, q, Meeting, meetingEnv);
    hide CreateDraft;
  }

  /** Only a positive reply or a question adds drafts; a question only the answer; none while the agent is paused. */
  lemma DraftsFollowClassification(s: Sdr, e: ReplyEvent, replyEnv: DraftEnv, meetingEnv: DraftEnv)
    ensures var db' := IngestReply(s.db, e, replyEnv, meetingEnv).0; var n := |s.db.drafts|;
      && n <= |db'.drafts| <= n + 2
      && (|db'.drafts| > n ==> e.classification in {Positive, Question} && !s.db.agentPaused
                               && db'.drafts[n].purpose == Reply && db'.drafts[n].status == DraftAwaiting)
      && (|db'.drafts| > n + 1 ==> e.classification == Positive && db'.drafts[n + 1].purpose == Meeting
                                   && db'.drafts[n + 1].status == DraftAwaiting)
  {
    var found := Correlate(s.db, e);
    if !SeenReply(s.db.replies, e.providerEventId) && found.Ok? {
      var (q, m) := found.value;
      var db1 := SetSequence(InsertReply(s.db, q, m, e.providerEventId, e.classification), q, ReplyStatus(e.classification));
      AtMostOneDraft(db1, q, Reply, replyEnv);
      AtMostOneDraft(CreateDraft(db1, q, Reply, replyEnv).0, q, Meeting, meetingEnv);
    }
    hide CreateDraft, Correlate;
  }

  lemma AtMostOneDraft(db: Db, q: nat, purpose: Purpose, env: DraftEnv)
    ensures var (db', outcome) := CreateDraft(db, q, purpose, env); var n := |db.drafts|;
      && |db'.drafts| == n + (if outcome == Done then 1 else 0)
      && outcome != Idempotent
      && (outcome == Done ==> db'.drafts[n].purpose == purpose && db'.drafts[n].status == DraftAwaiting
                              && forall d | 0 <= d < n :: db'.drafts[d].purpose == db.drafts[d].purpose
                                   && (db.drafts[d].purpose != purpose ==> db'.drafts[d] == db.drafts[d]))
  {
    DraftMadeExactlyWhen(db, q, purpose, env);
    if CreateDraft(db, q, purpose, env).1 == Done {
      DraftMade(db, q, purpose, env);
    } else {
      DraftRefused(db, q, purpose, env);
    }
    hide CreateDraft;
  }

  /** The answer to a positive reply or a question is drafted. */
  predicate Answered(db: Db, e: ReplyEvent, replyEnv: DraftEnv)
  {
    e.classification in {Positive, Question} && !db.agentPaused && replyEnv.researchOk && replyEnv.text.Some?
  }

  /** After the answer to a positive reply, the meeting proposal is. */
  predicate Proposes(db: Db, e: ReplyEvent, replyEnv: DraftEnv, meetingEnv: DraftEnv)
  {
    Answered(db, e, replyEnv) && e.classification == Positive && Good(meetingEnv)
  }

  /**
   Which drafts a new reply brings, and whether the call goes through: it does unless a draft it
   owes is refused, and it owes none while the agent is paused.
  */
  lemma DraftsExactlyWhen(s: Sdr, e: ReplyEvent, q: nat, replyEnv: DraftEnv, meetingEnv: DraftEnv)
    requires Reachable(s) && !SeenReply(s.db.replies, e.providerEventId) && BelongsTo(s.db, e, q)
    ensures var (db', outcome) := IngestReply(s.db, e, replyEnv, meetingEnv);
      && |db'.drafts| == |s.db.drafts| + (if Answered(s.db, e, replyEnv) then 1 else 0)
                         + (if Proposes(s.db, e, replyEnv, meetingEnv) then 1 else 0)
      && (outcome == Done <==>
            || e.classification !in {Positive, Question} || s.db.agentPaused
            || (if e.classification == Positive then Proposes(s.db, e, replyEnv, meetingEnv) else Answered(s.db, e, replyEnv)))
  {
    CorrelatesExactlyWhen(s, e, q);
    var m := Correlate(s.db, e).value.1;
    var db1 := SetSequence(InsertReply(s.db, q, m, e.providerEventId, e.classification), q, ReplyStatus(e.classification));
    ReplyStatusExactlyWhen(e.classification);
    DraftMadeExactlyWhen(db1, q, Reply, replyEnv);
    AtMostOneDraft(db1, q, Reply, replyEnv);
    PauseStays(db1, q, Reply, replyEnv);
    var (db2, o1) := CreateDraft(db1, q, Reply, replyEnv);
    if o1 == Done { DraftMade(db1, q, Reply, replyEnv); }
    DraftMadeExactlyWhen(db2, q, Meeting, meetingEnv);
    AtMostOneDraft(db2, q, Meeting, meetingEnv);
    hide CreateDraft, Correlate, BelongsTo, Reachable, SeenReply;
  }

  // ------------------------------------------------------------- after an opt-out

  /** q is cancelled, and no draft of it was added. */
  ghost predicate StillOut(a: Db, b: Db, q: nat)
  {
    && q < |b.sequences| && b.sequences[q].status == SeqCancelled
    && |a.drafts| <= |b.drafts|
    && (forall d | 0 <= d < |a.drafts| :: b.drafts[d].sequenceId == a.drafts[d].sequenceId)
    && (forall d | |a.drafts| <= d < |b.drafts| :: b.drafts[d].sequenceId != q)
  }

  lemma OutThen(a: Db, b: Db, c: Db, q: nat)
    requires StillOut(a, b, q) && StillOut(b, c, q)
    ensures StillOut(a, c, q)
  {}

  lemma DraftLeavesOut(db: Db, q: nat, p: nat, purpose: Purpose, env: DraftEnv)
    requires q < |db.sequences| && db.sequences[q].status == SeqCancelled
    ensures StillOut(db, CreateDraft(db, p, purpose, env).0, q)
  {
    hide CreateDraft, NewDraft, OlderSuperseded, HashDraftContent;
    DraftMadeExactlyWhen(db, p, purpose, env);
    if CreateDraft(db, p, purpose, env).1 == Done {
      DraftMade(db, p, purpose, env);
      MadeDraftLeavesOut(db, CreateDraft(db, p, purpose, env).0, q, p, purpose, env.text.value);
    } else {
      DraftRefused(db, p, purpose, env);
    }
  }

  lemma MadeDraftLeavesOut(db: Db, db1: Db, q: nat, p: nat, purpose: Purpose, text: (string, string))
    requires q < |db.sequences| && db.sequences[q].status == SeqCancelled && p != q
    requires NewDraft(db, db1, p, purpose, text) && OlderSuperseded(db, db1, p, purpose)
    requires OnlySequence(db, db1, p, if Running(db, p) then SeqAwaiting else SeqReplied)
    ensures StillOut(db, db1, q)
  {
    hide HashDraftContent;
  }

  lemma MoveLeavesOut(db: Db, q: nat, p: nat, status: SequenceStatus)
    requires q < |db.sequences| && db.sequences[q].status == SeqCancelled
    ensures StillOut(db, MoveSequence(db, p, status), q)
  {
    MoveMeans(db, p, status);
  }

  lemma SendLeavesOut(s: Sdr, q: nat, d: nat, env: SendEnv)
    requires q < |s.db.sequences| && s.db.sequences[q].status == SeqCancelled
    ensures StillOut(s.db, ExecuteSend(s, d, env).0.db, q)
  {
    hide Deliver;
    var gate := AssertSendAllowed(s.db, d, env.candidateOk);
    if !s.db.agentPaused && gate.Ok? {
      var key := KeyOf(s.db.tenantId, d, s.db.drafts[d]);
      var found := FindMessage(s.db.messages, key);
      var db1 := InsertMessage(s.db, s.db.drafts[d].sequenceId, d, gate.value, key);
      if found.Some? {
        DeliverLeavesOut(s, q, d, found.value, env);
      } else {
        DeliverLeavesOut(s.(db := db1), q, d, |s.db.messages|, env);
      }
      hide AssertSendAllowed, FindMessage;
    }
  }

  lemma DeliverLeavesOut(s: Sdr, q: nat, d: nat, m: nat, env: SendEnv)
    requires q < |s.db.sequences| && s.db.sequences[q].status == SeqCancelled
    requires d < |s.db.drafts| && s.db.drafts[d].sequenceId < |s.db.sequences| && m < |s.db.messages|
    ensures StillOut(s.db, Deliver(s, d, m, env).0.db, q)
  {
    hide SendEmail, SendInputOf;
  }

  lemma CallLeavesOut(s: Sdr, c: Call, q: nat)
    requires q < |s.db.sequences| && s.db.sequences[q].status == SeqCancelled && !c.CallReply?
    ensures StillOut(s.db, Apply(s, c).0.db, q)
  {
    hide CreateDraft, ExecuteSend, FindBooking, HasActive;
    match c
    case CallCreateSequence(email, candidateOk, researchOk, draft) =>
      var db1 := s.db.(sequences := s.db.sequences + [Sequence(SeqDrafting, email)]);
      if draft.Some? { DraftLeavesOut(db1, q, |s.db.sequences|, Outreach, draft.value); }
    case CallCreateDraft(p, purpose, env) => DraftLeavesOut(s.db, q, p, purpose, env);
    case CallSend(d, env) => SendLeavesOut(s, q, d, env);
    case _ =>
  }

  /** After an opt-out no call makes a draft for the sequence or revives it, unless another reply comes in. */
  lemma {:induction false} OptedOutUntilReply(s: Sdr, calls: seq<Call>, q: nat)
    requires q < |s.db.sequences| && s.db.sequences[q].status == SeqCancelled
    requires forall c <- calls :: !c.CallReply?
    ensures StillOut(s.db, Run(s, calls).db, q)
  {
    if calls == [] {
    } else {
      var n := |calls| - 1;
      assert calls[n] in calls && forall c <- calls[..n] :: c in calls;
      OptedOutUntilReply(s, calls[..n], q);
      CallLeavesOut(Run(s, calls[..n]), calls[n], q);
      hide StillOut, Apply;
      OutThen(s.db, Run(s, calls[..n]).db, Run(s, calls).db, q);
    }
  }

  /** And every draft asked for is refused. */
  lemma OptedOutIsRefused(db: Db, q: nat, purpose: Purpose, env: DraftEnv)
    requires q < |db.sequences| && db.sequences[q].status == SeqCancelled
    ensures CreateDraft(db, q, purpose, env) == (db, Refused(if db.agentPaused then AgentPaused else SequenceStopped))
  {
    hide InsertNextDraft;
  }

  /** A positive reply after an opt-out revives the drafting: the status of the newest reply is what counts. */
  lemma LaterReplyRevives(s: Sdr, e: ReplyEvent, q: nat, replyEnv: DraftEnv, meetingEnv: DraftEnv)
    requires Reachable(s) && !SeenReply(s.db.replies, e.providerEventId) && BelongsTo(s.db, e, q)
    requires StatusOf(s.db, q) == SeqCancelled
    ensures StatusOf(IngestReply(s.db, e, replyEnv, meetingEnv).0, q) == SeqCancelled <==> e.classification in {Unsubscribe, Negative}
  {
    assert q < |s.db.sequences|;
    ReplyDecides(s, e, q, replyEnv, meetingEnv);
    hide IngestReply, Reachable, BelongsTo;
  }

  // ------------------------------------------------------------ confirmMeeting

  /** No booking of the sequence is newer. */
  predicate NewestBooking(db: Db, q: nat, b: nat)
  {
    b < |db.bookings| && db.bookings[b].sequenceId == q && forall k | b < k < |db.bookings| :: db.bookings[k].sequenceId != q
  }

  lemma {:induction false} FindsNewestBooking(bookings: seq<Booking>, q: nat)
    ensures match FindBooking(bookings, q)
            case None => forall k | 0 <= k < |bookings| :: bookings[k].sequenceId != q
            case Some(b) => b < |bookings| && bookings[b].sequenceId == q && forall k | b < k < |bookings| :: bookings[k].sequenceId != q
  {
    if bookings == [] {
    } else {
      FindsNewestBooking(bookings[..|bookings| - 1], q);
    }
  }

  /**
   A meeting is booked exactly when the calendar confirms it for a sequence that has a booking
   and is not CANCELLED: the newest booking BOOKED, the sequence COMPLETED, nothing else moved.
  */
  lemma ConfirmedExactlyWhen(db: Db, q: nat, confirmOk: bool)
    ensures var (db', outcome) := ConfirmMeeting(db, q, confirmOk);
      && (outcome == Done <==> confirmOk && q < |db.sequences| && db.sequences[q].status != SeqCancelled
                               && exists b | 0 <= b < |db.bookings| :: db.bookings[b].sequenceId == q)
      && (outcome != Done ==> db' == db)
      && (outcome == Done ==>
            && OnlySequence(db, db', q, SeqCompleted)
            && db' == db.(sequences := db'.sequences, bookings := db'.bookings)
            && exists b: nat :: NewestBooking(db, q, b) && db'.bookings == db.bookings[b := Booking(q, Booked)])
  {
    var found := FindBooking(db.bookings, q);
    if found.Some? {
      FindsNewestBooking(db.bookings, q);
      assert NewestBooking(db, q, found.value);
      assert db.bookings[found.value].(status := Booked) == Booking(q, Booked);
    }
    hide FindBooking;
  }

  // ------------------------------------------------------------------ stopped

  /** Every call made after the first n is for another sequence. */
  ghost predicate NoCallFor(db: Db, calls: seq<SendInput>, n: nat, q: nat)
  {
    forall i | n <= i < |calls| :: calls[i].draftId < |db.drafts| && db.drafts[calls[i].draftId].sequenceId != q
  }

  ghost predicate StoppedSeq(db: Db, q: nat)
  {
    q < |db.sequences| && !Running(db, q)
  }

  /** From the first stop on, over every run of calls, the provider is called for no draft of the sequence. */
  lemma {:induction false} StoppedForGood(s: Sdr, calls: seq<Call>, q: nat)
    requires Reachable(s) && StoppedSeq(s.db, q)
    ensures var s' := Run(s, calls);
      Reachable(s') && StoppedSeq(s'.db, q) && s.mail.sendCalls <= s'.mail.sendCalls
      && NoCallFor(s'.db, s'.mail.sendCalls, |s.mail.sendCalls|, q)
  {
    if calls == [] {
    } else {
      var n := |calls| - 1;
      var s1, s2 := Run(s, calls[..n]), Run(s, calls);
      StoppedForGood(s, calls[..n], q);
      assert s2 == Apply(s1, calls[n]).0;
      hide Apply, Run;
      ReachableThen(s1, calls[n]);
      StoppedStays(s1, calls[n], q);
      StoppedCalls(s1, calls[n], q);
      ReachableInv(s1);
      ApplyAdvances(s1, calls[n]);
      hide Inv, Reachable, StoppedSeq;
      CallsThen(s.mail.sendCalls, s1, s2, q);
    }
  }

  lemma CallsThen(before: seq<SendInput>, s1: Sdr, s2: Sdr, q: nat)
    requires before <= s1.mail.sendCalls <= s2.mail.sendCalls && Grows(s1.db.drafts, s2.db.drafts)
    requires NoCallFor(s1.db, s1.mail.sendCalls, |before|, q) && NoCallFor(s1.db, s2.mail.sendCalls, |s1.mail.sendCalls|, q)
    ensures NoCallFor(s2.db, s2.mail.sendCalls, |before|, q)
  {
    forall i | |before| <= i < |s2.mail.sendCalls|
      ensures s2.mail.sendCalls[i].draftId < |s2.db.drafts| && s2.db.drafts[s2.mail.sendCalls[i].draftId].sequenceId != q
    {
      if i < |s1.mail.sendCalls| { assert s2.mail.sendCalls[i] == s1.mail.sendCalls[i]; }
      var d := s2.mail.sendCalls[i].draftId;
      assert s2.db.drafts[d] == s1.db.drafts[d].(status := s2.db.drafts[d].status);
    }
  }

  /** A call in a reachable state calls the provider for no stopped sequence. */
  lemma StoppedCalls(s: Sdr, c: Call, q: nat)
    requires Reachable(s) && StoppedSeq(s.db, q)
    ensures s.mail.sendCalls <= Apply(s, c).0.mail.sendCalls
    ensures NoCallFor(s.db, Apply(s, c).0.mail.sendCalls, |s.mail.sendCalls|, q)
  {
    if c.CallSend? {
      SendCalls(s, c.d, c.sendEnv);
      GateExactlyWhen(s, c.d, c.sendEnv.candidateOk);
      hide ExecuteSend, AssertSendAllowed, Reachable;
    } else {
      OthersNeverCall(s, c);
      hide Apply;
    }
  }

  lemma StoppedStays(s: Sdr, c: Call, q: nat)
    requires Reachable(s) && StoppedSeq(s.db, q)
    ensures StoppedSeq(Apply(s, c).0.db, q)
  {
    RunningExactlyWhen(s.db, q);
    RunningExactlyWhen(Apply(s, c).0.db, q);
    hide Reachable, CreateDraft, ExecuteSend, IngestReply, FindBooking, HasActive;
    match c
    case CallCreateSequence(email, candidateOk, researchOk, draft) =>
      var db1 := s.db.(sequences := s.db.sequences + [Sequence(SeqDrafting, email)]);
      if draft.Some? { DraftKeepsStop(db1, |s.db.sequences|, Outreach, draft.value, q); }
    case CallCreateDraft(p, purpose, env) => DraftKeepsStop(s.db, p, purpose, env, q);
    case CallSend(d, env) => SendKeepsStop(s, d, env, q);
    case CallReply(e, r, m) => ReplyKeepsStop(s.db, e, r, m, q);
    case _ =>
  }

  lemma DraftKeepsStop(db: Db, p: nat, purpose: Purpose, env: DraftEnv, q: nat)
    requires StoppedSeq(db, q)
    ensures StoppedSeq(CreateDraft(db, p, purpose, env).0, q)
  {
    DraftMadeExactlyWhen(db, p, purpose, env);
    if CreateDraft(db, p, purpose, env).1 == Done {
      DraftMade(db, p, purpose, env);
    } else {
      DraftRefused(db, p, purpose, env);
    }
    hide CreateDraft;
  }

  lemma SendKeepsStop(s: Sdr, d: nat, env: SendEnv, q: nat)
    requires StoppedSeq(s.db, q)
    ensures StoppedSeq(ExecuteSend(s, d, env).0.db, q)
  {
    hide Deliver;
    var gate := AssertSendAllowed(s.db, d, env.candidateOk);
    if !s.db.agentPaused && gate.Ok? {
      var key := KeyOf(s.db.tenantId, d, s.db.drafts[d]);
      var found := FindMessage(s.db.messages, key);
      var db1 := InsertMessage(s.db, s.db.drafts[d].sequenceId, d, gate.value, key);
      if found.Some? {
        DeliverKeepsStop(s, d, found.value, env, q);
      } else {
        DeliverKeepsStop(s.(db := db1), d, |s.db.messages|, env, q);
      }
      hide AssertSendAllowed, FindMessage;
    }
  }

  lemma DeliverKeepsStop(s: Sdr, d: nat, m: nat, env: SendEnv, q: nat)
    requires StoppedSeq(s.db, q)
    requires d < |s.db.drafts| && s.db.drafts[d].sequenceId < |s.db.sequences| && m < |s.db.messages|
    ensures StoppedSeq(Deliver(s, d, m, env).0.db, q)
  {
    RunningExactlyWhen(s.db, q);
    hide SendEmail, SendInputOf;
  }

  lemma ReplyKeepsStop(db: Db, e: ReplyEvent, r: DraftEnv, m: DraftEnv, q: nat)
    requires StoppedSeq(db, q)
    ensures StoppedSeq(IngestReply(db, e, r, m).0, q)
  {
    if !SeenReply(db.replies, e.providerEventId) && Correlate(db, e).Ok? {
      ReplyStopsItsSequence(db, e, r, m);
      RunningExactlyWhen(db, q);
      RunningExactlyWhen(IngestReply(db, e, r, m).0, q);
      hide IngestReply, Correlate;
    } else {
      hide AdaptDrafts, Correlate;
    }
  }
}
