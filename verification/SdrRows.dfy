/** What single rows of the AI SDR tables promise about each other. */
module SdrRows {
  import opened Wrappers
  import opened OutboundProvider
  import opened SdrModel

  ghost predicate DraftOk(db: Db, row: Draft)
  {
    row.sequenceId < |db.sequences| && row.contentHash == LiveHash(row)
  }

  ghost predicate ApprovalOk(drafts: seq<Draft>, row: Approval)
  {
    && row.draftId < |drafts|
    && row.draftVersion == drafts[row.draftId].version
    && row.contentHash == drafts[row.draftId].contentHash
  }

  ghost predicate MessageOk(tenantId: string, drafts: seq<Draft>, row: Message)
  {
    && row.draftId < |drafts|
    && row.sequenceId == drafts[row.draftId].sequenceId
    && row.key == KeyOf(tenantId, row.draftId, drafts[row.draftId])
  }

  /** Foreign keys, and the copies other rows hold of a draft's immutable part. */
  ghost predicate RowsOk(db: Db)
  {
    && (forall d | 0 <= d < |db.drafts| :: DraftOk(db, db.drafts[d]))
    && (forall a | 0 <= a < |db.approvals| :: ApprovalOk(db.drafts, db.approvals[a]))
    && (forall m | 0 <= m < |db.messages| :: MessageOk(db.tenantId, db.drafts, db.messages[m]))
  }

  ghost predicate MessageRecorded(mail: Mailer, row: Message)
  {
    && (row.status == MsgSent ==> row.providerMessageId.Some?)
    && (row.providerMessageId.Some? ==> row.providerMessageId == Some(DetMsg(row.key)) && row.key in mail.sentByKey)
  }

  /** Rows are only appended, and of a draft only the status changes. */
  ghost predicate Grows(a: seq<Draft>, b: seq<Draft>)
  {
    |a| <= |b| && forall d | 0 <= d < |a| :: b[d] == a[d].(status := b[d].status)
  }

  /** The address is the non-empty one the draft's sequence was created with. */
  predicate Addressed(db: Db, draft: Draft, email: string)
  {
    draft.sequenceId < |db.sequences| && db.sequences[draft.sequenceId].targetEmail == Some(email) && email != ""
  }

  /** Subject and body are the draft row's own. */
  predicate SameText(draft: Draft, subject: string, body: string)
  {
    (draft.subject == Some(subject) || (draft.subject.None? && subject == "")) && body == draft.body
  }

  /** Sequences are only appended, and none changes its address. */
  ghost predicate TargetsStay(a: seq<Sequence>, b: seq<Sequence>)
  {
    |a| <= |b| && forall q | 0 <= q < |a| :: b[q].targetEmail == a[q].targetEmail
  }

  /** The approval row a provider call rests on: this draft, this version, this very text, to its own sequence's address. */
  ghost predicate Covers(db: Db, a: nat, input: SendInput)
    requires a < |db.approvals|
  {
    && db.approvals[a].draftId == input.draftId < |db.drafts|
    && db.approvals[a].draftVersion == db.drafts[input.draftId].version
    && var draft := db.drafts[input.draftId];
       && db.approvals[a].contentHash == HashDraftContent(draft.channel, draft.purpose, Some(input.subject), input.body)
       && SameText(draft, input.subject, input.body)
       && Addressed(db, draft, input.toEmail)
  }
}
