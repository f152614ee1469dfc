/**
 The two granularities agree: a thread left alone, statement after statement, has exactly
 the effect of its service call. The states in which it can finish are the results of the
 call, one for each way the outside may answer, and no others; and every run of whole
 calls is a run of the threads.
*/
module SdrRefinement {
  import opened Wrappers
  import opened OutboundProvider
  import opened SdrModel
  import opened SdrThreads
  import opened SdrSolo
  import opened SdrSendAlone
  import opened SdrDraftsAlone
  import Calls = SdrCalls

  // ------------------------------------------------------------- ingestReply

  /** The call's drafts after a reply. */
  function AdaptResult(db: Db, mail: Mailer, q: nat, c: Classification, r: Calls.DraftEnv, m: Calls.DraftEnv): Solo
  {
    Solo(Calls.AdaptDrafts(db, q, c, r, m).0, mail, Finished)
  }

  /** The draft a reply asks for, and the one after it. */
  function ReplyDraft(q: nat, c: Classification): DraftCtx
  {
    DraftCtx(q, Reply, if c == Positive then [Meeting] else [])
  }

  lemma ReplyDraftEnds(db: Db, mail: Mailer, q: nat, c: Classification, r: Calls.DraftEnv, e: Solo)
    requires (c == Positive || c == Question) && !db.agentPaused
    ensures Ends(DraftResult(db, mail, ReplyDraft(q, c), r), e)
      <==> exists m :: e == AdaptResult(db, mail, q, c, r, m)
  {
    var g := ReplyDraft(q, c);
    var (db1, o1) := Calls.CreateDraft(db, q, Reply, r);
    if o1.Done? && c == Positive {
      assert AfterDraft(g) == DraftPaused(DraftCtx(q, Meeting, []));
      LastDraftEnds(db1, mail, DraftCtx(q, Meeting, []), e);
      hide Ends, Calls.CreateDraft;
      forall m ensures AdaptResult(db, mail, q, c, r, m) == Solo(Calls.CreateDraft(db1, q, Meeting, m).0, mail, Finished) {
        BothDrafts(db, mail, q, c, r, m);
      }
    } else {
      FinishedEnds(DraftResult(db, mail, g, r), e);
      hide Ends, Calls.CreateDraft;
      forall m ensures AdaptResult(db, mail, q, c, r, m) == DraftResult(db, mail, g, r) { OneDraft(db, mail, q, c, r, m); }
      assert AdaptResult(db, mail, q, c, r, r) == DraftResult(db, mail, g, r);
    }
  }

  lemma BothDrafts(db: Db, mail: Mailer, q: nat, c: Classification, r: Calls.DraftEnv, m: Calls.DraftEnv)
    requires c == Positive && !db.agentPaused && Calls.CreateDraft(db, q, Reply, r).1.Done?
    ensures AdaptResult(db, mail, q, c, r, m)
      == Solo(Calls.CreateDraft(Calls.CreateDraft(db, q, Reply, r).0, q, Meeting, m).0, mail, Finished)
  {
    hide Calls.CreateDraft;
  }

  lemma OneDraft(db: Db, mail: Mailer, q: nat, c: Classification, r: Calls.DraftEnv, m: Calls.DraftEnv)
    requires (c == Positive || c == Question) && !db.agentPaused
    requires !Calls.CreateDraft(db, q, Reply, r).1.Done? || c != Positive
    ensures AdaptResult(db, mail, q, c, r, m) == DraftResult(db, mail, ReplyDraft(q, c), r)
  {
    NeverIdempotent(db, q, r);
    hide Calls.CreateDraft;
  }

  lemma NeverIdempotent(db: Db, q: nat, r: Calls.DraftEnv)
    ensures !Calls.CreateDraft(db, q, Reply, r).1.Idempotent?
  {
    hide Calls.InsertNextDraft;
  }

  /** Some environments make the call's drafts after a reply end in e. */
  ghost predicate Adapted(db: Db, mail: Mailer, q: nat, c: Classification, e: Solo)
  {
    exists r, m :: e == AdaptResult(db, mail, q, c, r, m)
  }

  function AfterStop(e: ReplyEvent, q: nat): Thread
  {
    if e.classification == Positive || e.classification == Question then ReplyAdapt(e, q) else Finished
  }

  lemma AdaptEnds(db: Db, mail: Mailer, event: ReplyEvent, q: nat, e: Solo)
    ensures Ends(Solo(db, mail, AfterStop(event, q)), e) <==> Adapted(db, mail, q, event.classification, e)
  {
    var c := event.classification;
    if (c != Positive && c != Question) || db.agentPaused {
      AdaptSkips(db, mail, event, q, e);
    } else {
      var g := ReplyDraft(q, c);
      Only(Solo(db, mail, ReplyAdapt(event, q)), Solo(db, mail, DraftPaused(g)));
      CreateDraftAlone(db, mail, g, e);
      AdaptedByDrafts(db, mail, q, c, e);
      hide Ends, Adapted, DraftResult;
    }
  }

  lemma AdaptedByDrafts(db: Db, mail: Mailer, q: nat, c: Classification, e: Solo)
    requires (c == Positive || c == Question) && !db.agentPaused
    ensures Adapted(db, mail, q, c, e)
      <==> exists r :: Ends(DraftResult(db, mail, ReplyDraft(q, c), r), e)
  {
    hide Ends, AdaptResult, DraftResult;
    var g := ReplyDraft(q, c);
    if r :| Ends(DraftResult(db, mail, g, r), e) {
      ReplyDraftEnds(db, mail, q, c, r, e);
    }
    if r, m :| e == AdaptResult(db, mail, q, c, r, m) {
      ReplyDraftEnds(db, mail, q, c, r, e);
    }
  }

  lemma AdaptSkips(db: Db, mail: Mailer, event: ReplyEvent, q: nat, e: Solo)
    requires (event.classification != Positive && event.classification != Question) || db.agentPaused
    ensures Ends(Solo(db, mail, AfterStop(event, q)), e) <==> Adapted(db, mail, q, event.classification, e)
  {
    var c, none := event.classification, Calls.DraftEnv(true, true, None);
    FinishedEnds(Solo(db, mail, Finished), e);
    if c == Positive || c == Question {
      Only(Solo(db, mail, ReplyAdapt(event, q)), Solo(db, mail, Finished));
    }
    hide Ends;
    assert forall r, m :: AdaptResult(db, mail, q, c, r, m) == Solo(db, mail, Finished);
    assert AdaptResult(db, mail, q, c, none, none) == Solo(db, mail, Finished);
  }

  function ReplyResult(db: Db, mail: Mailer, event: ReplyEvent, r: Calls.DraftEnv, m: Calls.DraftEnv): Solo
  {
    Solo(Calls.IngestReply(db, event, r, m).0, mail, Finished)
  }

  /** The tables once the reply is recorded and its sequence stopped. */
  function Recorded(db: Db, event: ReplyEvent, q: nat, message: Option<nat>): Db
    requires q < |db.sequences|
  {
    SetSequence(InsertReply(db, q, message, event.providerEventId, event.classification), q, ReplyStatus(event.classification))
  }

  function AfterCorrelate(db: Db, event: ReplyEvent): Thread
  {
    match Calls.Correlate(db, event)
    case Err(_) => Finished
    case Ok((q, message)) => ReplyInsert(event, q, message)
  }

  lemma CorrelateReads(db: Db, mail: Mailer, event: ReplyEvent)
    ensures SameEnds(Solo(db, mail, ReplyCorrelate(event)), Solo(db, mail, AfterCorrelate(db, event)))
  {
    hide SameEnds, AfterCorrelate;
    var s1 := Solo(db, mail, ReplyCorrelate(event));
    match CorrelatedTo(db, event)
    case None =>
      CorrelationMeans(db, event);
      NoCorrelation(db, mail, event);
    case Some((q, message)) =>
      CorrelationMeans(db, event);
      var s2 := Solo(db, mail, ReplyReadSequence(event, q, message));
      CorrelationFound(db, mail, event);
      ReadSequenceAlone(db, mail, event, q, message);
      SameThen(s1, s2, Solo(db, mail, AfterCorrelate(db, event)));
  }

  /** The sequence and message the event names, whether or not the sequence exists. */
  function CorrelatedTo(db: Db, event: ReplyEvent): Option<(nat, Option<nat>)>
  {
    match event.providerMessageId
    case Some(p) =>
      var m := FindByProviderId(db.messages, p);
      if m.None? || (event.sequenceId.Some? && event.sequenceId.value != db.messages[m.value].sequenceId) then None
      else Some((db.messages[m.value].sequenceId, m))
    case None => if event.fromWebhook || event.sequenceId.None? then None else Some((event.sequenceId.value, None))
  }

  lemma CorrelationMeans(db: Db, event: ReplyEvent)
    ensures var to := CorrelatedTo(db, event);
      AfterCorrelate(db, event)
        == if to.Some? && to.value.0 < |db.sequences| then ReplyInsert(event, to.value.0, to.value.1) else Finished
  {
    hide FindByProviderId;
  }

  lemma NoCorrelation(db: Db, mail: Mailer, event: ReplyEvent)
    requires CorrelatedTo(db, event).None?
    ensures SameEnds(Solo(db, mail, ReplyCorrelate(event)), Solo(db, mail, Finished))
  {
    hide SameEnds;
    Only(Solo(db, mail, ReplyCorrelate(event)), Solo(db, mail, Finished));
  }

  lemma CorrelationFound(db: Db, mail: Mailer, event: ReplyEvent)
    requires CorrelatedTo(db, event).Some?
    ensures var (q, message) := CorrelatedTo(db, event).value;
      SameEnds(Solo(db, mail, ReplyCorrelate(event)), Solo(db, mail, ReplyReadSequence(event, q, message)))
  {
    hide SameEnds;
    var (q, message) := CorrelatedTo(db, event).value;
    Only(Solo(db, mail, ReplyCorrelate(event)), Solo(db, mail, ReplyReadSequence(event, q, message)));
  }

  lemma ReadSequenceAlone(db: Db, mail: Mailer, event: ReplyEvent, q: nat, message: Option<nat>)
    ensures SameEnds(Solo(db, mail, ReplyReadSequence(event, q, message)),
                     Solo(db, mail, if q < |db.sequences| then ReplyInsert(event, q, message) else Finished))
  {
    hide SameEnds;
    Only(Solo(db, mail, ReplyReadSequence(event, q, message)),
         Solo(db, mail, if q < |db.sequences| then ReplyInsert(event, q, message) else Finished));
  }

  lemma StopAlone(db: Db, mail: Mailer, event: ReplyEvent, q: nat, message: Option<nat>)
    requires q < |db.sequences| && !SeenReply(db.replies, event.providerEventId)
    ensures SameEnds(Solo(db, mail, ReplyInsert(event, q, message)),
                     Solo(Recorded(db, event, q, message), mail, AfterStop(event, q)))
  {
    hide SameEnds;
    var s3 := Solo(db, mail, ReplyInsert(event, q, message));
    var s4 := Solo(InsertReply(db, q, message, event.providerEventId, event.classification), mail, ReplyStop(event, q));
    Only(s3, s4);
    Hop(s3, s4, Solo(Recorded(db, event, q, message), mail, AfterStop(event, q)));
  }

  lemma RecordedReply(db: Db, mail: Mailer, event: ReplyEvent, r: Calls.DraftEnv, m: Calls.DraftEnv)
    requires !SeenReply(db.replies, event.providerEventId)
    ensures var found := Calls.Correlate(db, event);
      ReplyResult(db, mail, event, r, m)
        == if found.Err? then Solo(db, mail, Finished)
           else AdaptResult(Recorded(db, event, found.value.0, found.value.1), mail, found.value.0, event.classification, r, m)
  {
    hide Calls.AdaptDrafts, Calls.Correlate;
  }

  /** ingestReply alone finishes with exactly the results of the call, over all answers its drafts may get. */
  lemma ReplyAlone(db: Db, mail: Mailer, event: ReplyEvent, e: Solo)
    ensures Ends(Solo(db, mail, ReplySeen(event)), e) <==> exists r, m :: e == ReplyResult(db, mail, event, r, m)
  {
    var none := Calls.DraftEnv(true, true, None);
    FinishedEnds(Solo(db, mail, Finished), e);
    if SeenReply(db.replies, event.providerEventId) {
      Only(Solo(db, mail, ReplySeen(event)), Solo(db, mail, Finished));
      hide Ends;
      assert forall r, m :: ReplyResult(db, mail, event, r, m) == Solo(db, mail, Finished);
      assert ReplyResult(db, mail, event, none, none) == Solo(db, mail, Finished);
    } else {
      Only(Solo(db, mail, ReplySeen(event)), Solo(db, mail, ReplyCorrelate(event)));
      CorrelateReads(db, mail, event);
      NewReplyEnds(db, mail, event, e);
      hide Ends, ReplyResult;
    }
  }

  lemma NewReplyEnds(db: Db, mail: Mailer, event: ReplyEvent, e: Solo)
    requires !SeenReply(db.replies, event.providerEventId)
    ensures Ends(Solo(db, mail, AfterCorrelate(db, event)), e) <==> exists r, m :: e == ReplyResult(db, mail, event, r, m)
  {
    var found, none := Calls.Correlate(db, event), Calls.DraftEnv(true, true, None);
    forall r, m ensures ReplyResult(db, mail, event, r, m)
      == if found.Err? then Solo(db, mail, Finished)
         else AdaptResult(Recorded(db, event, found.value.0, found.value.1), mail, found.value.0, event.classification, r, m)
    {
      RecordedReply(db, mail, event, r, m);
    }
    if found.Err? {
      FinishedEnds(Solo(db, mail, Finished), e);
      hide Ends, ReplyResult;
      assert ReplyResult(db, mail, event, none, none) == Solo(db, mail, Finished);
    } else {
      var (q, message) := found.value;
      StopAlone(db, mail, event, q, message);
      AdaptEnds(Recorded(db, event, q, message), mail, event, q, e);
      hide Ends, ReplyResult, Recorded, AdaptResult;
    }
  }

  // ---------------------------------------------------------- the decisions

  lemma OnlyEnd(a: Solo, b: Solo, e: Solo)
    requires SameEnds(a, b) && b.t == Finished
    ensures Ends(a, e) <==> e == b
  {
    FinishedEnds(b, e);
  }

  /** A decision alone has one end, the call's result. */
  lemma DecisionsAlone(db: Db, mail: Mailer, d: nat, e: Solo)
    ensures Ends(Solo(db, mail, ApproveRead(d)), e) <==> e == Solo(Calls.ApproveDraft(db, d).0, mail, Finished)
    ensures Ends(Solo(db, mail, RevokeRead(d)), e) <==> e == Solo(Calls.RevokeApproval(db, d).0, mail, Finished)
    ensures Ends(Solo(db, mail, RejectRead(d)), e) <==> e == Solo(Calls.RejectDraft(db, d).0, mail, Finished)
  {
    hide Ends, SameEnds;
    ApproveAlone(db, mail, d);
    RevokeAlone(db, mail, d);
    RejectAlone(db, mail, d);
    OnlyEnd(Solo(db, mail, ApproveRead(d)), Solo(Calls.ApproveDraft(db, d).0, mail, Finished), e);
    OnlyEnd(Solo(db, mail, RevokeRead(d)), Solo(Calls.RevokeApproval(db, d).0, mail, Finished), e);
    OnlyEnd(Solo(db, mail, RejectRead(d)), Solo(Calls.RejectDraft(db, d).0, mail, Finished), e);
  }

  lemma ApproveAlone(db: Db, mail: Mailer, d: nat)
    ensures SameEnds(Solo(db, mail, ApproveRead(d)), Solo(Calls.ApproveDraft(db, d).0, mail, Finished))
  {
    hide SameEnds;
    var s0 := Solo(db, mail, ApproveRead(d));
    if Calls.ApproveDraft(db, d).1.Refused? {
      Only(s0, Solo(db, mail, Finished));
      return;
    }
    var s1 := Solo(db, mail, ApproveInsert(d, db.drafts[d]));
    Only(s0, s1);
    ApproveRowsAlone(db, mail, d);
    SameThen(s0, s1, Solo(Calls.ApproveDraft(db, d).0, mail, Finished));
  }

  lemma ApproveRowsAlone(db: Db, mail: Mailer, d: nat)
    requires d < |db.drafts|
    ensures var draft := db.drafts[d];
      SameEnds(Solo(db, mail, ApproveInsert(d, draft)),
        Solo(MoveSequence(SetDraft(InsertApproval(db, d, draft), d, DraftApproved), draft.sequenceId, SeqApproved), mail, Finished))
  {
    hide SameEnds;
    var draft := db.drafts[d];
    var s1 := Solo(db, mail, ApproveInsert(d, draft));
    var db1 := InsertApproval(db, d, draft);
    var s2 := Solo(db1, mail, ApproveMark(d, draft.sequenceId));
    Only(s1, s2);
    var db2 := SetDraft(db1, d, DraftApproved);
    var s3 := Solo(db2, mail, ApproveMove(draft.sequenceId));
    Hop(s1, s2, s3);
    Hop(s1, s3, Solo(MoveSequence(db2, draft.sequenceId, SeqApproved), mail, Finished));
  }

  lemma RevokeAlone(db: Db, mail: Mailer, d: nat)
    ensures SameEnds(Solo(db, mail, RevokeRead(d)), Solo(Calls.RevokeApproval(db, d).0, mail, Finished))
  {
    hide SameEnds;
    var s0 := Solo(db, mail, RevokeRead(d));
    if d >= |db.drafts| {
      Only(s0, Solo(db, mail, Finished));
      return;
    }
    var s1 := Solo(db, mail, RevokeRows(d));
    Only(s0, s1);
    RevokeRowsAlone(db, mail, d);
    SameThen(s0, s1, Solo(Calls.RevokeApproval(db, d).0, mail, Finished));
  }

  lemma RevokeRowsAlone(db: Db, mail: Mailer, d: nat)
    requires d < |db.drafts|
    ensures SameEnds(Solo(db, mail, RevokeRows(d)),
                     Solo(if HasActive(db, d) then SetDraft(RevokeActive(db, d), d, DraftAwaiting) else db, mail, Finished))
  {
    hide SameEnds;
    var s1, db1 := Solo(db, mail, RevokeRows(d)), RevokeActive(db, d);
    if !HasActive(db, d) {
      assert db1.approvals == db.approvals;
      Only(s1, Solo(db, mail, Finished));
      return;
    }
    var s2 := Solo(db1, mail, RevokeMark(d));
    Only(s1, s2);
    Hop(s1, s2, Solo(SetDraft(db1, d, DraftAwaiting), mail, Finished));
  }

  lemma RejectAlone(db: Db, mail: Mailer, d: nat)
    ensures SameEnds(Solo(db, mail, RejectRead(d)), Solo(Calls.RejectDraft(db, d).0, mail, Finished))
  {
    hide SameEnds;
    var s0 := Solo(db, mail, RejectRead(d));
    if !Calls.RejectDraft(db, d).1.Done? {
      Only(s0, Solo(db, mail, Finished));
      return;
    }
    Only(s0, Solo(db, mail, RejectRows(d)));
    RejectRowsAlone(db, mail, d);
    SameThen(s0, Solo(db, mail, RejectRows(d)), Solo(Calls.RejectDraft(db, d).0, mail, Finished));
  }

  lemma RejectRowsAlone(db: Db, mail: Mailer, d: nat)
    requires d < |db.drafts|
    ensures SameEnds(Solo(db, mail, RejectRows(d)), Solo(SetDraft(RevokeActive(db, d), d, DraftRejected), mail, Finished))
  {
    hide SameEnds;
    var s1, s2 := Solo(db, mail, RejectRows(d)), Solo(RevokeActive(db, d), mail, RejectMark(d));
    Only(s1, s2);
    Hop(s1, s2, Solo(SetDraft(RevokeActive(db, d), d, DraftRejected), mail, Finished));
  }

  // ---------------------------------------------------------- confirmMeeting

  function ConfirmResult(db: Db, mail: Mailer, q: nat, confirmOk: bool): Solo
  {
    Solo(Calls.ConfirmMeeting(db, q, confirmOk).0, mail, Finished)
  }

  /** confirmMeeting alone finishes with the call's result for the calendar's yes or for its no. */
  lemma ConfirmAlone(db: Db, mail: Mailer, q: nat, e: Solo)
    ensures Ends(Solo(db, mail, ConfirmRead(q)), e) <==> exists confirmOk :: e == ConfirmResult(db, mail, q, confirmOk)
  {
    var s0, stop := Solo(db, mail, ConfirmRead(q)), Solo(db, mail, Finished);
    if q >= |db.sequences| {
      FinishedEnds(stop, e);
      Only(s0, stop);
      hide Ends;
      assert forall ok :: ConfirmResult(db, mail, q, ok) == stop;
      return;
    }
    Only(s0, Solo(db, mail, ConfirmFindBooking(q, db.sequences[q].status)));
    FoundEnds(db, mail, q, e);
    hide Ends, ConfirmResult;
  }

  lemma FoundEnds(db: Db, mail: Mailer, q: nat, e: Solo)
    requires q < |db.sequences|
    ensures Ends(Solo(db, mail, ConfirmFindBooking(q, db.sequences[q].status)), e)
      <==> exists confirmOk :: e == ConfirmResult(db, mail, q, confirmOk)
  {
    var b, stop := FindBooking(db.bookings, q), Solo(db, mail, Finished);
    var s1 := Solo(db, mail, ConfirmFindBooking(q, db.sequences[q].status));
    FinishedEnds(stop, e);
    if b.None? || db.sequences[q].status == SeqCancelled {
      Only(s1, stop);
      hide Ends;
      assert forall ok :: ConfirmResult(db, mail, q, ok) == stop;
    } else {
      Only(s1, Solo(db, mail, ConfirmProvider(q, b.value)));
      BookEnds(db, mail, q, b.value, e);
      hide Ends;
      assert ConfirmResult(db, mail, q, false) == stop;
      assert ConfirmResult(db, mail, q, true) == Solo(SetSequence(SetBooked(db, b.value), q, SeqCompleted), mail, Finished);
    }
  }

  lemma BookEnds(db: Db, mail: Mailer, q: nat, b: nat, e: Solo)
    requires q < |db.sequences| && b < |db.bookings|
    ensures Ends(Solo(db, mail, ConfirmProvider(q, b)), e)
      <==> e == Solo(SetSequence(SetBooked(db, b), q, SeqCompleted), mail, Finished) || e == Solo(db, mail, Finished)
  {
    var s3, s4 := Solo(db, mail, ConfirmBook(q, b)), Solo(SetBooked(db, b), mail, ConfirmComplete(q));
    var done := Solo(SetSequence(SetBooked(db, b), q, SeqCompleted), mail, Finished);
    Only(s3, s4);
    Only(s4, done);
    FinishedEnds(done, e);
    FinishedEnds(Solo(db, mail, Finished), e);
    hide Ends;
    var no := Answer(true, true, true, false, true, None);
    Splits(Solo(db, mail, ConfirmProvider(q, b)), s3, YES, Solo(db, mail, Finished), no, e);
  }

  // ---------------------------------------------------------------- all calls

  /** The thread starts this call; what the outside answers is the call's own. */
  predicate Starts(t: Thread, c: Calls.Call)
  {
    match c
    case CallCreateSequence(email, _, _, draft) => t == SequencePaused(email, draft.Some?)
    case CallCreateDraft(q, purpose, _) => t == DraftPaused(DraftCtx(q, purpose, []))
    case CallApprove(d) => t == ApproveRead(d)
    case CallRevoke(d) => t == RevokeRead(d)
    case CallReject(d) => t == RejectRead(d)
    case CallSend(d, env) => t == SendPaused(d, env.fixture)
    case CallReply(event, _, _) => t == ReplySeen(event)
    case CallConfirm(q, _) => t == ConfirmRead(q)
    case CallSetPaused(_) => false
  }

  function ResultOf(db: Db, mail: Mailer, c: Calls.Call): Solo
  {
    var s := Calls.Apply(Calls.Sdr(db, mail), c).0;
    Solo(s.db, s.mail, Finished)
  }

  /** The results of the call, service by service. */
  lemma ResultIs(db: Db, mail: Mailer, c: Calls.Call)
    ensures match c
      case CallCreateSequence(email, candidateOk, researchOk, draft) =>
        ResultOf(db, mail, c) == SequenceResult(db, mail, email, candidateOk, researchOk, draft)
      case CallCreateDraft(q, purpose, env) =>
        ResultOf(db, mail, c) == Solo(Calls.CreateDraft(db, q, purpose, env).0, mail, Finished)
      case CallApprove(d) => ResultOf(db, mail, c) == Solo(Calls.ApproveDraft(db, d).0, mail, Finished)
      case CallRevoke(d) => ResultOf(db, mail, c) == Solo(Calls.RevokeApproval(db, d).0, mail, Finished)
      case CallReject(d) => ResultOf(db, mail, c) == Solo(Calls.RejectDraft(db, d).0, mail, Finished)
      case CallSend(d, env) => ResultOf(db, mail, c) == SendResult(db, mail, d, env)
      case CallReply(event, r, m) => ResultOf(db, mail, c) == ReplyResult(db, mail, event, r, m)
      case CallConfirm(q, ok) => ResultOf(db, mail, c) == ConfirmResult(db, mail, q, ok)
      case CallSetPaused(_) => true
  {
    hide Calls.CreateSequence, Calls.CreateDraft, Calls.ApproveDraft, Calls.RevokeApproval, Calls.RejectDraft, Calls.ExecuteSend;
    hide Calls.IngestReply, Calls.ConfirmMeeting;
  }

  /** Some call that the thread starts ends in e. */
  ghost predicate ResultsIn(db: Db, mail: Mailer, t: Thread, e: Solo)
  {
    exists c :: Starts(t, c) && e == ResultOf(db, mail, c)
  }

  lemma SendResultsIn(db: Db, mail: Mailer, d: nat, fixture: Fixture, e: Solo)
    ensures ResultsIn(db, mail, SendPaused(d, fixture), e)
      <==> exists env: Calls.SendEnv :: env.fixture == fixture && e == SendResult(db, mail, d, env)
  {
    hide ResultOf, SendResult;
    if c :| Starts(SendPaused(d, fixture), c) && e == ResultOf(db, mail, c) { ResultIs(db, mail, c); }
    if env: Calls.SendEnv :| env.fixture == fixture && e == SendResult(db, mail, d, env) {
      ResultIs(db, mail, Calls.CallSend(d, env));
    }
  }

  lemma SequenceResultsIn(db: Db, mail: Mailer, target: Option<string>, drafting: bool, e: Solo)
    ensures ResultsIn(db, mail, SequencePaused(target, drafting), e) <==> SequenceEnds(db, mail, target, drafting, e)
  {
    hide ResultOf, SequenceResult;
    if c :| Starts(SequencePaused(target, drafting), c) && e == ResultOf(db, mail, c) { ResultIs(db, mail, c); }
    if candidateOk, researchOk, draft: Option<Calls.DraftEnv>
      :| draft.Some? == drafting && e == SequenceResult(db, mail, target, candidateOk, researchOk, draft)
    {
      ResultIs(db, mail, Calls.CallCreateSequence(target, candidateOk, researchOk, draft));
    }
  }

  lemma DraftResultsIn(db: Db, mail: Mailer, q: nat, purpose: Purpose, e: Solo)
    ensures ResultsIn(db, mail, DraftPaused(DraftCtx(q, purpose, [])), e)
      <==> exists env :: e == Solo(Calls.CreateDraft(db, q, purpose, env).0, mail, Finished)
  {
    hide ResultOf, Calls.CreateDraft;
    if c :| Starts(DraftPaused(DraftCtx(q, purpose, [])), c) && e == ResultOf(db, mail, c) { ResultIs(db, mail, c); }
    if env :| e == Solo(Calls.CreateDraft(db, q, purpose, env).0, mail, Finished) {
      ResultIs(db, mail, Calls.CallCreateDraft(q, purpose, env));
    }
  }

  lemma ReplyResultsIn(db: Db, mail: Mailer, event: ReplyEvent, e: Solo)
    ensures ResultsIn(db, mail, ReplySeen(event), e) <==> exists r, m :: e == ReplyResult(db, mail, event, r, m)
  {
    hide ResultOf, ReplyResult;
    if c :| Starts(ReplySeen(event), c) && e == ResultOf(db, mail, c) { ResultIs(db, mail, c); }
    if r, m :| e == ReplyResult(db, mail, event, r, m) {
      ResultIs(db, mail, Calls.CallReply(event, r, m));
    }
  }

  lemma ConfirmResultsIn(db: Db, mail: Mailer, q: nat, e: Solo)
    ensures ResultsIn(db, mail, ConfirmRead(q), e) <==> exists ok :: e == ConfirmResult(db, mail, q, ok)
  {
    hide ResultOf, ConfirmResult;
    if c :| Starts(ConfirmRead(q), c) && e == ResultOf(db, mail, c) { ResultIs(db, mail, c); }
    if ok :| e == ConfirmResult(db, mail, q, ok) {
      ResultIs(db, mail, Calls.CallConfirm(q, ok));
    }
  }

  lemma DecisionResultsIn(db: Db, mail: Mailer, t: Thread, c: Calls.Call, e: Solo)
    requires c.CallApprove? || c.CallRevoke? || c.CallReject?
    requires Starts(t, c)
    ensures ResultsIn(db, mail, t, e) <==> e == ResultOf(db, mail, c)
  {
    hide ResultOf;
  }

  ghost predicate IsTheCall(db: Db, mail: Mailer, t: Thread, e: Solo)
  {
    Ends(Solo(db, mail, t), e) <==> ResultsIn(db, mail, t, e)
  }

  lemma SendIsTheCall(db: Db, mail: Mailer, d: nat, fixture: Fixture, e: Solo)
    ensures IsTheCall(db, mail, SendPaused(d, fixture), e)
  {
    hide Ends, ResultsIn, SendResult;
    SendAlone(db, mail, d, fixture, e);
    SendResultsIn(db, mail, d, fixture, e);
  }

  lemma SequenceIsTheCall(db: Db, mail: Mailer, target: Option<string>, drafting: bool, e: Solo)
    ensures IsTheCall(db, mail, SequencePaused(target, drafting), e)
  {
    hide Ends, ResultsIn, SequenceEnds;
    SequenceAlone(db, mail, target, drafting, e);
    SequenceResultsIn(db, mail, target, drafting, e);
  }

  lemma DraftIsTheCall(db: Db, mail: Mailer, q: nat, purpose: Purpose, e: Solo)
    ensures IsTheCall(db, mail, DraftPaused(DraftCtx(q, purpose, [])), e)
  {
    hide Ends, ResultsIn, Calls.CreateDraft;
    LastDraftEnds(db, mail, DraftCtx(q, purpose, []), e);
    DraftResultsIn(db, mail, q, purpose, e);
  }

  lemma ReplyIsTheCall(db: Db, mail: Mailer, event: ReplyEvent, e: Solo)
    ensures IsTheCall(db, mail, ReplySeen(event), e)
  {
    hide Ends, ResultsIn, ReplyResult;
    ReplyAlone(db, mail, event, e);
    ReplyResultsIn(db, mail, event, e);
  }

  lemma ConfirmIsTheCall(db: Db, mail: Mailer, q: nat, e: Solo)
    ensures IsTheCall(db, mail, ConfirmRead(q), e)
  {
    hide Ends, ResultsIn, ConfirmResult;
    ConfirmAlone(db, mail, q, e);
    ConfirmResultsIn(db, mail, q, e);
  }

  lemma DecisionIsTheCall(db: Db, mail: Mailer, t: Thread, c: Calls.Call, d: nat, e: Solo)
    requires c == Calls.CallApprove(d) || c == Calls.CallRevoke(d) || c == Calls.CallReject(d)
    requires t == if c.CallApprove? then ApproveRead(d) else if c.CallRevoke? then RevokeRead(d) else RejectRead(d)
    ensures IsTheCall(db, mail, t, e)
  {
    DecisionResultsIn(db, mail, t, c, e);
    hide Ends, ResultsIn, ResultOf, Calls.ApproveDraft, Calls.RevokeApproval, Calls.RejectDraft;
    ResultIs(db, mail, c);
    DecisionsAlone(db, mail, d, e);
  }

  /** Every service call: what its thread can finish with, left alone, is what the call can result in. */
  lemma AloneIsTheCall(db: Db, mail: Mailer, t: Thread, e: Solo)
    requires Initial(t)
    ensures Ends(Solo(db, mail, t), e) <==> exists c :: Starts(t, c) && e == ResultOf(db, mail, c)
  {
    AllAreTheCall(db, mail, t, e);
    hide Ends, Starts, ResultOf;
  }

  lemma AllAreTheCall(db: Db, mail: Mailer, t: Thread, e: Solo)
    requires Initial(t)
    ensures IsTheCall(db, mail, t, e)
  {
    hide IsTheCall;
    if t.SendPaused? {
      SendIsTheCall(db, mail, t.d, t.fixture, e);
    } else if t.SequencePaused? {
      SequenceIsTheCall(db, mail, t.target, t.drafting, e);
    } else if t.DraftPaused? {
      assert t.g == DraftCtx(t.g.q, t.g.purpose, []);
      DraftIsTheCall(db, mail, t.g.q, t.g.purpose, e);
    } else if t.ReplySeen? {
      ReplyIsTheCall(db, mail, t.e, e);
    } else if t.ConfirmRead? {
      ConfirmIsTheCall(db, mail, t.q, e);
    } else if t.ApproveRead? {
      DecisionIsTheCall(db, mail, t, Calls.CallApprove(t.d), t.d, e);
    } else if t.RevokeRead? {
      DecisionIsTheCall(db, mail, t, Calls.CallRevoke(t.d), t.d, e);
    } else {
      DecisionIsTheCall(db, mail, t, Calls.CallReject(t.d), t.d, e);
    }
  }

  // ----------------------------------------------------------- runs of calls

  function StartOf(c: Calls.Call): (t: Thread)
    ensures !c.CallSetPaused? ==> Initial(t) && Starts(t, c)
  {
    match c
    case CallCreateSequence(email, _, _, draft) => SequencePaused(email, draft.Some?)
    case CallCreateDraft(q, purpose, _) => DraftPaused(DraftCtx(q, purpose, []))
    case CallApprove(d) => ApproveRead(d)
    case CallRevoke(d) => RevokeRead(d)
    case CallReject(d) => RejectRead(d)
    case CallSend(d, env) => SendPaused(d, env.fixture)
    case CallReply(event, _, _) => ReplySeen(event)
    case CallConfirm(q, _) => ConfirmRead(q)
    case CallSetPaused(_) => Finished
  }

  function SdrOf(w: World): Calls.Sdr
  {
    Calls.Sdr(w.db, w.mail)
  }

  /** The call's own thread, run to its end, takes the tables and the provider where the call takes them. */
  lemma CallIsARun(w: World, c: Calls.Call)
    ensures exists steps :: SdrOf(TakeAll(w, steps)) == Calls.Apply(SdrOf(w), c).0
  {
    hide Calls.Apply, TakeAll;
    if c.CallSetPaused? {
      PauseIsAStep(w, c.paused);
    } else {
      var t, e := StartOf(c), ResultOf(w.db, w.mail, c);
      AloneIsTheCall(w.db, w.mail, t, e);
      hide Starts, Initial;
      var answers :| Alone(Solo(w.db, w.mail, t), answers) == e;
      StartedRun(w, t, answers);
    }
  }

  lemma PauseIsAStep(w: World, paused: bool)
    ensures SdrOf(TakeAll(w, [SetPaused(paused)])) == Calls.Apply(SdrOf(w), Calls.CallSetPaused(paused)).0
  {
    TakeOne(w, SetPaused(paused));
  }

  lemma StartedRun(w: World, t: Thread, answers: seq<Answer>)
    requires Initial(t)
    ensures exists steps :: var e := Alone(Solo(w.db, w.mail, t), answers);
      SdrOf(TakeAll(w, steps)) == Calls.Sdr(e.db, e.mail)
  {
    hide Alone, Initial;
    var tid := |w.threads|;
    var w1 := w.(threads := w.threads + [t]);
    var steps := Runs(tid, answers);
    assert Take(w, Spawn(t)) == w1;
    TakeOne(w, Spawn(t));
    TakeSum(w, [Spawn(t)], steps);
    AloneInWorld(w1, tid, answers);
    assert SdrOf(TakeAll(w, [Spawn(t)] + steps)) == SdrOf(TakeAll(w1, steps));
  }

  /** Every run of whole calls is a run of the threads: the tables and the provider agree at its end. */
  lemma {:induction false} CallsAreARun(tenantId: string, calls: seq<Calls.Call>)
    ensures exists steps :: SdrOf(TakeAll(Start(tenantId), steps)) == Calls.Run(Calls.Initial(tenantId), calls)
  {
    if calls == [] {
      assert TakeAll(Start(tenantId), []) == Start(tenantId);
    } else {
      var n := |calls| - 1;
      CallsAreARun(tenantId, calls[..n]);
      var first :| SdrOf(TakeAll(Start(tenantId), first)) == Calls.Run(Calls.Initial(tenantId), calls[..n]);
      var w := TakeAll(Start(tenantId), first);
      CallIsARun(w, calls[n]);
      var rest :| SdrOf(TakeAll(w, rest)) == Calls.Apply(SdrOf(w), calls[n]).0;
      TakeSum(Start(tenantId), first, rest);
      assert SdrOf(TakeAll(Start(tenantId), first + rest)) == Calls.Run(Calls.Initial(tenantId), calls);
    }
  }
}
