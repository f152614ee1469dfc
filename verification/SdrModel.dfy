/**
 The AI SDR tables of one tenant. Tables only grow, so a row id is the row's position; an
 update replaces the row in place. The functions here are the database statements the
 service issues, each one atomic.
*/
module SdrModel {
  import opened Wrappers
  import opened OutboundProvider

  datatype SequenceStatus =
    | SeqDrafting | SeqAwaiting | SeqApproved | SeqActive
    | SeqPaused | SeqReplied | SeqCompleted | SeqCancelled | SeqFailed

  datatype DraftStatus =
    | DraftNew | DraftAwaiting | DraftApproved | DraftSuperseded | DraftSent | DraftRejected

  datatype MessageStatus = MsgQueued | MsgSending | MsgSent | MsgFailed

  datatype CrmSync = SyncNone | SyncPending | SyncCompleted | SyncFailed

  datatype BookingStatus = Proposed | Booked

  datatype Purpose = Outreach | FollowUp | Reply | Meeting

  datatype Classification = Positive | Negative | Question | NotNow | OutOfOffice | Unsubscribe | Unknown

  datatype Sequence = Sequence(status: SequenceStatus, targetEmail: Option<string>)

  datatype Draft = Draft(
    sequenceId: nat, version: nat, purpose: Purpose, channel: string, subject: Option<string>, body: string,
    contentHash: Digest, status: DraftStatus)

  datatype Approval = Approval(draftId: nat, draftVersion: nat, contentHash: Digest, active: bool)

  datatype Message = Message(
    sequenceId: nat, draftId: nat, approvalId: nat, key: SendKey, status: MessageStatus,
    providerMessageId: Option<ProviderMessageId>, crmSync: CrmSync)

  datatype ReplyRow = ReplyRow(
    sequenceId: nat, messageId: Option<nat>, providerEventId: string, classification: Classification)

  datatype Booking = Booking(sequenceId: nat, status: BookingStatus)

  datatype Db = Db(
    tenantId: string, agentPaused: bool,
    sequences: seq<Sequence>, drafts: seq<Draft>, approvals: seq<Approval>, messages: seq<Message>,
    replies: seq<ReplyRow>, bookings: seq<Booking>)

  datatype ReplyEvent = ReplyEvent(
    fromWebhook: bool, providerEventId: string, providerMessageId: Option<ProviderMessageId>,
    sequenceId: Option<nat>, classification: Classification)

  predicate Stopped(status: SequenceStatus)
  {
    status in {SeqReplied, SeqCancelled, SeqPaused, SeqCompleted, SeqFailed}
  }

  /** The statuses that a new draft of the same purpose supersedes. */
  predicate Open(status: DraftStatus)
  {
    status in {DraftNew, DraftAwaiting, DraftApproved}
  }

  /** Decided against: rejected by a human, or superseded by a newer draft. */
  predicate Final(status: DraftStatus)
  {
    status in {DraftRejected, DraftSuperseded}
  }

  function PurposeText(p: Purpose): string
  {
    match p
    case Outreach => "outreach"
    case FollowUp => "follow_up"
    case Reply => "reply"
    case Meeting => "meeting"
  }

  function OrEmpty(s: Option<string>): string
  {
    if s.Some? then s.value else ""
  }

  function HashDraftContent(channel: string, purpose: Purpose, subject: Option<string>, body: string): Digest
  {
    Sha256(channel + "|" + PurposeText(purpose) + "|" + OrEmpty(subject) + "|" + body)
  }

  function LiveHash(d: Draft): Digest
  {
    HashDraftContent(d.channel, d.purpose, d.subject, d.body)
  }

  function KeyOf(tenantId: string, d: nat, draft: Draft): SendKey
  {
    SendKey(tenantId, d, draft.contentHash)
  }

  // ---------------------------------------------------------------- queries

  /** The newest ACTIVE approval of a draft. */
  function FindActive(approvals: seq<Approval>, d: nat): (r: Option<nat>)
    ensures r.Some? ==> r.value < |approvals| && approvals[r.value].draftId == d && approvals[r.value].active
    ensures r.None? ==> forall a | 0 <= a < |approvals| :: approvals[a].draftId != d || !approvals[a].active
  {
    if approvals == [] then None
    else
      var last := |approvals| - 1;
      if approvals[last].draftId == d && approvals[last].active then Some(last)
      else FindActive(approvals[..last], d)
  }

  /** The message row under a (tenant-unique) idempotency key. */
  function FindMessage(messages: seq<Message>, key: SendKey): (r: Option<nat>)
    ensures r.Some? ==> r.value < |messages| && messages[r.value].key == key
    ensures r.None? ==> forall m | 0 <= m < |messages| :: messages[m].key != key
  {
    if messages == [] then None
    else
      var last := |messages| - 1;
      if messages[last].key == key then Some(last) else FindMessage(messages[..last], key)
  }

  /** The message a provider message id was stored on. */
  function FindByProviderId(messages: seq<Message>, p: ProviderMessageId): (r: Option<nat>)
    ensures r.Some? ==> r.value < |messages| && messages[r.value].providerMessageId == Some(p)
    ensures r.None? ==> forall m | 0 <= m < |messages| :: messages[m].providerMessageId != Some(p)
  {
    if messages == [] then None
    else if messages[0].providerMessageId == Some(p) then Some(0)
    else
      match FindByProviderId(messages[1..], p)
      case None => None
      case Some(m) => Some(m + 1)
  }

  predicate SeenReply(replies: seq<ReplyRow>, eventId: string)
  {
    exists i | 0 <= i < |replies| :: replies[i].providerEventId == eventId
  }

  /** The newest booking of a sequence. */
  function FindBooking(bookings: seq<Booking>, q: nat): (r: Option<nat>)
    ensures r.Some? ==> r.value < |bookings| && bookings[r.value].sequenceId == q
    ensures r.None? ==> forall b | 0 <= b < |bookings| :: bookings[b].sequenceId != q
  {
    if bookings == [] then None
    else
      var last := |bookings| - 1;
      if bookings[last].sequenceId == q then Some(last) else FindBooking(bookings[..last], q)
  }

  /** The largest version among a sequence's drafts, 0 when it has none. */
  function MaxVersion(drafts: seq<Draft>, q: nat): (v: nat)
    ensures forall i | 0 <= i < |drafts| && drafts[i].sequenceId == q :: drafts[i].version <= v
    ensures v == 0 || exists i :: 0 <= i < |drafts| && drafts[i].sequenceId == q && drafts[i].version == v
  {
    if drafts == [] then 0
    else
      var last := |drafts| - 1;
      var before := MaxVersion(drafts[..last], q);
      if drafts[last].sequenceId == q && drafts[last].version > before then drafts[last].version else before
  }

  predicate HasActive(db: Db, d: nat)
  {
    exists a | 0 <= a < |db.approvals| :: db.approvals[a].draftId == d && db.approvals[a].active
  }

  predicate HasSentMessage(db: Db, d: nat)
  {
    exists m | 0 <= m < |db.messages| :: db.messages[m].draftId == d && db.messages[m].status == MsgSent
  }

  // ------------------------------------------------------------- statements

  function SetDraft(db: Db, d: nat, status: DraftStatus): Db
    requires d < |db.drafts|
  {
    db.(drafts := db.drafts[d := db.drafts[d].(status := status)])
  }

  function RevokeActive(db: Db, d: nat): Db
  {
    db.(approvals := seq(|db.approvals|, i requires 0 <= i < |db.approvals| =>
      if db.approvals[i].draftId == d then db.approvals[i].(active := false) else db.approvals[i]))
  }

  function InsertApproval(db: Db, d: nat, draft: Draft): Db
  {
    db.(approvals := db.approvals + [Approval(d, draft.version, draft.contentHash, true)])
  }

  function SetSequence(db: Db, q: nat, status: SequenceStatus): Db
    requires q < |db.sequences|
  {
    db.(sequences := db.sequences[q := db.sequences[q].(status := status)])
  }

  /** updateMany where the id is q and status notIn STOP_STATUSES; no matching row changes nothing. */
  function MoveSequence(db: Db, q: nat, status: SequenceStatus): Db
  {
    if q >= |db.sequences| || Stopped(db.sequences[q].status) then db else SetSequence(db, q, status)
  }

  function SetMessage(db: Db, m: nat, row: Message): Db
    requires m < |db.messages|
  {
    db.(messages := db.messages[m := row])
  }

  function InsertMessage(db: Db, q: nat, d: nat, a: nat, key: SendKey): Db
  {
    db.(messages := db.messages + [Message(q, d, a, key, MsgQueued, None, SyncNone)])
  }

  function InsertDraft(db: Db, q: nat, version: nat, purpose: Purpose, text: (string, string)): Db
  {
    var hash := HashDraftContent("email", purpose, Some(text.0), text.1);
    db.(drafts := db.drafts + [Draft(q, version, purpose, "email", Some(text.0), text.1, hash, DraftAwaiting)])
  }

  function InsertReply(db: Db, q: nat, m: Option<nat>, eventId: string, c: Classification): Db
  {
    db.(replies := db.replies + [ReplyRow(q, m, eventId, c)])
  }

  function InsertBooking(db: Db, q: nat): Db
  {
    db.(bookings := db.bookings + [Booking(q, Proposed)])
  }

  function SetBooked(db: Db, b: nat): Db
    requires b < |db.bookings|
  {
    db.(bookings := db.bookings[b := db.bookings[b].(status := Booked)])
  }

  /** The status an inbound reply gives its sequence. */
  function ReplyStatus(c: Classification): SequenceStatus
  {
    if c == Unsubscribe || c == Negative then SeqCancelled else SeqReplied
  }
}
