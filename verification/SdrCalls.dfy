/**
 The AI SDR service at the granularity of whole public calls: the database is reliable,
 the provider, research, CRM and generator answers are arbitrary parameters.
*/
module SdrCalls {
  import opened Wrappers
  import opened OutboundProvider
  import opened SdrModel

  datatype Sdr = Sdr(db: Db, mail: Mailer)

  datatype Refusal =
    | NotFound | AgentPaused | SequenceStopped | SequenceReplied | ResearchUnavailable | CandidateNotReady
    | ProviderFailed | GeneratorRejected | DraftSupersededAlready | DraftRejectedAlready | DraftSentAlready
    | HashMismatch | NoActiveApproval | NoTargetEmail | NotApproved | ApprovalMismatch
    | CorrelationRequired | CorrelationMismatch | NoBooking | SequenceIsCancelled

  datatype Outcome = Done | Idempotent | Refused(reason: Refusal)

  /** What the outside answers while one draft is generated. `text` is None when the generator throws. */
  datatype DraftEnv = DraftEnv(researchOk: bool, proposeOk: bool, text: Option<(string, string)>)

  datatype SendEnv = SendEnv(fixture: Fixture, candidateOk: bool, crmOk: bool)

  // ------------------------------------------------------------------ calls

  predicate IsPrior(draft: Draft, q: nat, purpose: Purpose)
  {
    draft.sequenceId == q && draft.purpose == purpose && Open(draft.status)
  }

  /** Every open draft of the purpose becomes SUPERSEDED and loses its active approvals. */
  function SupersedePrior(db: Db, q: nat, purpose: Purpose): Db
  {
    db.(
      drafts := seq(|db.drafts|, i requires 0 <= i < |db.drafts| =>
        if IsPrior(db.drafts[i], q, purpose) then db.drafts[i].(status := DraftSuperseded) else db.drafts[i]),
      approvals := seq(|db.approvals|, i requires 0 <= i < |db.approvals| =>
        var a := db.approvals[i];
        if a.draftId < |db.drafts| && IsPrior(db.drafts[a.draftId], q, purpose) then a.(active := false) else a))
  }

  /** The new draft, one version above the newest, while the sequence waits for its approval. */
  function InsertLatest(db: Db, q: nat, purpose: Purpose, text: (string, string)): Db
  {
    MoveSequence(InsertDraft(db, q, MaxVersion(db.drafts, q) + 1, purpose, text), q, SeqAwaiting)
  }

  function InsertNextDraft(db: Db, q: nat, purpose: Purpose, text: (string, string)): Db
  {
    InsertLatest(SupersedePrior(db, q, purpose), q, purpose, text)
  }

  function CreateDraft(db: Db, q: nat, purpose: Purpose, env: DraftEnv): (Db, Outcome)
  {
    if db.agentPaused then (db, Refused(AgentPaused))
    else if q >= |db.sequences| then (db, Refused(NotFound))
    else
      var status := db.sequences[q].status;
      if Stopped(status) && status != SeqReplied then (db, Refused(SequenceStopped))
      else if status == SeqReplied && purpose == Outreach then (db, Refused(SequenceReplied))
      else if !env.researchOk then (db, Refused(ResearchUnavailable))
      else if purpose == Meeting && !env.proposeOk then (db, Refused(ProviderFailed))
      else
        var db1 := if purpose == Meeting then InsertBooking(db, q) else db;
        match env.text
        case None => (db1, Refused(GeneratorRejected))
        case Some(text) => (InsertNextDraft(db1, q, purpose, text), Done)
  }

  function CreateSequence(db: Db, email: Option<string>, candidateOk: bool, researchOk: bool, draft: Option<DraftEnv>)
    : (Db, Outcome)
  {
    if db.agentPaused then (db, Refused(AgentPaused))
    else if !candidateOk then (db, Refused(CandidateNotReady))
    else if !researchOk then (db, Refused(ResearchUnavailable))
    else
      var db1 := db.(sequences := db.sequences + [Sequence(SeqDrafting, email)]);
      match draft
      case None => (db1, Done)
      case Some(env) => CreateDraft(db1, |db.sequences|, Outreach, env)
  }

  function ApproveDraft(db: Db, d: nat): (Db, Outcome)
  {
    if d >= |db.drafts| then (db, Refused(NotFound))
    else
      var draft := db.drafts[d];
      if draft.status == DraftSuperseded then (db, Refused(DraftSupersededAlready))
      else if draft.status == DraftRejected then (db, Refused(DraftRejectedAlready))
      else if draft.status == DraftSent then (db, Refused(DraftSentAlready))
      else if LiveHash(draft) != draft.contentHash then (db, Refused(HashMismatch))
      else
        var db1 := SetDraft(InsertApproval(db, d, draft), d, DraftApproved);
        (MoveSequence(db1, draft.sequenceId, SeqApproved), Done)
  }

  function RevokeApproval(db: Db, d: nat): (Db, Outcome)
  {
    if d >= |db.drafts| then (db, Refused(NotFound))
    else if !HasActive(db, d) then (db, Refused(NoActiveApproval))
    else (SetDraft(RevokeActive(db, d), d, DraftAwaiting), Done)
  }

  function RejectDraft(db: Db, d: nat): (Db, Outcome)
  {
    if d >= |db.drafts| then (db, Refused(NotFound))
    else if db.drafts[d].status == DraftSent then (db, Refused(DraftSentAlready))
    else if db.drafts[d].status == DraftRejected then (db, Idempotent)
    else if db.drafts[d].status == DraftSuperseded then (db, Refused(DraftSupersededAlready))
    else (SetDraft(RevokeActive(db, d), d, DraftRejected), Done)
  }

  /** The send gate: the approval that authorises sending the draft now. */
  function AssertSendAllowed(db: Db, d: nat, candidateOk: bool): (r: Result<nat, Refusal>)
    ensures r.Ok? ==> d < |db.drafts| && db.drafts[d].sequenceId < |db.sequences|
  {
    if d >= |db.drafts| then Err(NotFound)
    else
      var draft := db.drafts[d];
      if draft.sequenceId >= |db.sequences| then Err(NotFound)
      else
        var sequence := db.sequences[draft.sequenceId];
        if Stopped(sequence.status) then Err(SequenceStopped)
        else if draft.status == DraftSuperseded then Err(DraftSupersededAlready)
        else if draft.status == DraftRejected then Err(DraftRejectedAlready)
        else if OrEmpty(sequence.targetEmail) == "" then Err(NoTargetEmail)
        else
          match FindActive(db.approvals, d)
          case None => Err(NotApproved)
          case Some(a) =>
            var approval := db.approvals[a];
            if approval.contentHash != draft.contentHash || approval.draftVersion != draft.version then
              Err(ApprovalMismatch)
            else if LiveHash(draft) != approval.contentHash then Err(HashMismatch)
            else if !candidateOk then Err(CandidateNotReady)
            else Ok(a)
  }

  function SendInputOf(db: Db, d: nat, fixture: Fixture): SendInput
    requires d < |db.drafts| && db.drafts[d].sequenceId < |db.sequences|
  {
    var draft := db.drafts[d];
    SendInput(KeyOf(db.tenantId, d, draft), d, OrEmpty(db.sequences[draft.sequenceId].targetEmail),
              OrEmpty(draft.subject), draft.body, fixture)
  }

  /** From the message row on: the provider call and what its answer is written to. */
  function Deliver(s: Sdr, d: nat, m: nat, env: SendEnv): (Sdr, Outcome)
    requires d < |s.db.drafts| && s.db.drafts[d].sequenceId < |s.db.sequences| && m < |s.db.messages|
  {
    var db, q := s.db, s.db.drafts[d].sequenceId;
    var row := db.messages[m];
    var (mail, answer) := SendEmail(s.mail, SendInputOf(db, d, env.fixture));
    match answer
    case None => (Sdr(SetMessage(db, m, row.(status := MsgFailed, crmSync := SyncNone)), mail), Refused(ProviderFailed))
    case Some(id) =>
      var crm := if env.crmOk then SyncCompleted else SyncFailed;
      var db1 := SetMessage(db, m, row.(status := MsgSent, providerMessageId := Some(id), crmSync := crm));
      (Sdr(MoveSequence(SetDraft(db1, d, DraftSent), q, SeqActive), mail), Done)
  }

  function ExecuteSend(s: Sdr, d: nat, env: SendEnv): (Sdr, Outcome)
  {
    if s.db.agentPaused then (s, Refused(AgentPaused))
    else
      match AssertSendAllowed(s.db, d, env.candidateOk)
      case Err(reason) => (s, Refused(reason))
      case Ok(a) =>
        var key := KeyOf(s.db.tenantId, d, s.db.drafts[d]);
        match FindMessage(s.db.messages, key)
        case Some(m) =>
          if s.db.messages[m].status == MsgSent then (s, Idempotent) else Deliver(s, d, m, env)
        case None =>
          var db1 := InsertMessage(s.db, s.db.drafts[d].sequenceId, d, a, key);
          Deliver(Sdr(db1, s.mail), d, |s.db.messages|, env)
  }

  /** Which sequence and message a reply event belongs to. */
  function Correlate(db: Db, e: ReplyEvent): (r: Result<(nat, Option<nat>), Refusal>)
    ensures r.Ok? ==> r.value.0 < |db.sequences|
  {
    if e.fromWebhook && e.providerMessageId.None? then Err(CorrelationRequired)
    else
      match e.providerMessageId
      case Some(p) =>
        (match FindByProviderId(db.messages, p)
         case None => Err(NotFound)
         case Some(m) =>
           var q := db.messages[m].sequenceId;
           if e.sequenceId.Some? && e.sequenceId.value != q then Err(CorrelationMismatch)
           else if q >= |db.sequences| then Err(NotFound)
           else Ok((q, Some(m))))
      case None =>
        if e.sequenceId.None? then Err(CorrelationRequired)
        else if e.sequenceId.value >= |db.sequences| then Err(NotFound)
        else Ok((e.sequenceId.value, None))
  }

  /** The suggested reply and meeting drafts; a refusal of the first leaves the second out. */
  function AdaptDrafts(db: Db, q: nat, c: Classification, replyEnv: DraftEnv, meetingEnv: DraftEnv): (Db, Outcome)
  {
    if (c != Positive && c != Question) || db.agentPaused then (db, Done)
    else
      var (db1, o1) := CreateDraft(db, q, Reply, replyEnv);
      if o1.Refused? || c != Positive then (db1, o1) else CreateDraft(db1, q, Meeting, meetingEnv)
  }

  function IngestReply(db: Db, e: ReplyEvent, replyEnv: DraftEnv, meetingEnv: DraftEnv): (Db, Outcome)
  {
    if SeenReply(db.replies, e.providerEventId) then (db, Idempotent)
    else
      match Correlate(db, e)
      case Err(reason) => (db, Refused(reason))
      case Ok((q, m)) =>
        var db1 := InsertReply(db, q, m, e.providerEventId, e.classification);
        AdaptDrafts(SetSequence(db1, q, ReplyStatus(e.classification)), q, e.classification, replyEnv, meetingEnv)
  }

  function ConfirmMeeting(db: Db, q: nat, confirmOk: bool): (Db, Outcome)
  {
    if q >= |db.sequences| then (db, Refused(NotFound))
    else
      match FindBooking(db.bookings, q)
      case None => (db, Refused(NoBooking))
      case Some(b) =>
        if db.sequences[q].status == SeqCancelled then (db, Refused(SequenceIsCancelled))
        else if !confirmOk then (db, Refused(ProviderFailed))
        else (SetSequence(SetBooked(db, b), q, SeqCompleted), Done)
  }

  // ------------------------------------------------------------------- runs

  datatype Call =
    | CallCreateSequence(email: Option<string>, candidateOk: bool, researchOk: bool, draft: Option<DraftEnv>)
    | CallCreateDraft(q: nat, purpose: Purpose, draftEnv: DraftEnv)
    | CallApprove(d: nat)
    | CallRevoke(d: nat)
    | CallReject(d: nat)
    | CallSend(d: nat, sendEnv: SendEnv)
    | CallReply(event: ReplyEvent, replyEnv: DraftEnv, meetingEnv: DraftEnv)
    | CallConfirm(q: nat, confirmOk: bool)
    | CallSetPaused(paused: bool)

  function OnDb(s: Sdr, r: (Db, Outcome)): (Sdr, Outcome)
  {
    (s.(db := r.0), r.1)
  }

  function Apply(s: Sdr, c: Call): (Sdr, Outcome)
  {
    match c
    case CallCreateSequence(email, candidateOk, researchOk, draft) =>
      OnDb(s, CreateSequence(s.db, email, candidateOk, researchOk, draft))
    case CallCreateDraft(q, purpose, env) => OnDb(s, CreateDraft(s.db, q, purpose, env))
    case CallApprove(d) => OnDb(s, ApproveDraft(s.db, d))
    case CallRevoke(d) => OnDb(s, RevokeApproval(s.db, d))
    case CallReject(d) => OnDb(s, RejectDraft(s.db, d))
    case CallSend(d, env) => ExecuteSend(s, d, env)
    case CallReply(e, replyEnv, meetingEnv) => OnDb(s, IngestReply(s.db, e, replyEnv, meetingEnv))
    case CallConfirm(q, ok) => OnDb(s, ConfirmMeeting(s.db, q, ok))
    case CallSetPaused(p) => (s.(db := s.db.(agentPaused := p)), Done)
  }

  function Initial(tenantId: string): Sdr
  {
    Sdr(Db(tenantId, false, [], [], [], [], [], []), Mailer(map[], [], []))
  }

  /** The state after a run of calls. */
  function Run(s: Sdr, calls: seq<Call>): Sdr
  {
    if calls == [] then s else Apply(Run(s, calls[..|calls| - 1]), calls[|calls| - 1]).0
  }
}
