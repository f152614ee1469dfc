/**
 What every run of whole service calls keeps: approvals agree with draft statuses, versions
 are exactly 1..n, at most one unsent draft per purpose is open, and the consequences.
*/
module SdrCoherence {
  import opened Wrappers
  import opened OutboundProvider
  import opened SdrModel
  import opened SdrRows
  import opened SdrCalls

  // -------------------------------------------------------------- invariant

  /** A draft has an ACTIVE approval exactly when it is APPROVED or SENT. */
  ghost predicate ApprovalCoherent(db: Db)
  {
    forall d | 0 <= d < |db.drafts| :: ApprovalAgrees(db, d)
  }

  ghost predicate ApprovalAgrees(db: Db, d: nat)
    requires d < |db.drafts|
  {
    HasActive(db, d) <==> db.drafts[d].status in {DraftApproved, DraftSent}
  }

  /** How many of these drafts belong to sequence q. */
  ghost function CountOf(drafts: seq<Draft>, q: nat): nat
  {
    if drafts == [] then 0
    else CountOf(drafts[..|drafts| - 1], q) + (if drafts[|drafts| - 1].sequenceId == q then 1 else 0)
  }

  /** The n-th draft of a sequence has version n. */
  ghost predicate VersionsExact(drafts: seq<Draft>)
  {
    forall d | 0 <= d < |drafts| :: VersionExact(drafts, d)
  }

  ghost predicate VersionExact(drafts: seq<Draft>, d: nat)
    requires d < |drafts|
  {
    drafts[d].version == CountOf(drafts[..d + 1], drafts[d].sequenceId)
  }

  ghost predicate OpenUnsent(db: Db, d: nat)
    requires d < |db.drafts|
  {
    Open(db.drafts[d].status) && !HasSentMessage(db, d)
  }

  ghost predicate OneOpen(db: Db)
  {
    forall d, e | 0 <= d < e < |db.drafts| && OpenUnsent(db, d) && OpenUnsent(db, e) ::
      db.drafts[d].sequenceId != db.drafts[e].sequenceId || db.drafts[d].purpose != db.drafts[e].purpose
  }

  ghost predicate SentBacked(db: Db, d: nat)
    requires d < |db.drafts|
  {
    db.drafts[d].status == DraftSent ==> HasSentMessage(db, d)
  }

  /** A SENT draft has a SENT message, and a message's provider id is the one the provider holds. */
  ghost predicate SendsRecorded(s: Sdr)
  {
    && OncePerKey(s.mail)
    && (forall d | 0 <= d < |s.db.drafts| :: SentBacked(s.db, d))
    && (forall m | 0 <= m < |s.db.messages| :: MessageRecorded(s.mail, s.db.messages[m]))
    && (forall m, n | 0 <= m < n < |s.db.messages| :: s.db.messages[m].key != s.db.messages[n].key)
  }

  ghost predicate Inv(s: Sdr)
  {
    && RowsOk(s.db)
    && ApprovalCoherent(s.db)
    && VersionsExact(s.db.drafts)
    && OneOpen(s.db)
    && SendsRecorded(s)
  }

  // ------------------------------------------------------------ preservation

  /** Nothing in the invariant reads a sequence's status, a booking, a reply or the pause. */
  lemma OnlySequences(s: Sdr, db: Db)
    requires Inv(s) && |db.sequences| >= |s.db.sequences|
    requires db.tenantId == s.db.tenantId && db.drafts == s.db.drafts
    requires db.approvals == s.db.approvals && db.messages == s.db.messages
    ensures Inv(s.(db := db))
  {
    CoherentFrom(s.db, db);
    SendsRecordedSame(s, db);
    assert forall d :: HasSentMessage(db, d) == HasSentMessage(s.db, d);
  }

  lemma MoveKeeps(s: Sdr, q: nat, status: SequenceStatus)
    requires Inv(s)
    ensures Inv(s.(db := MoveSequence(s.db, q, status)))
  {
    OnlySequences(s, MoveSequence(s.db, q, status));
  }

  /** Coherence moves to a state where every draft keeps both its standing and its active approval. */
  lemma CoherentFrom(db: Db, db1: Db)
    requires ApprovalCoherent(db) && |db1.drafts| == |db.drafts|
    requires forall d | 0 <= d < |db.drafts| ::
      && HasActive(db1, d) == HasActive(db, d)
      && (db1.drafts[d].status in {DraftApproved, DraftSent} <==> db.drafts[d].status in {DraftApproved, DraftSent})
    ensures ApprovalCoherent(db1)
  {
    forall d | 0 <= d < |db1.drafts| ensures ApprovalAgrees(db1, d) { assert ApprovalAgrees(db, d); }
  }

  /** Without new message rows or newly SENT drafts, nothing new needs recording. */
  lemma SendsRecordedSame(s: Sdr, db1: Db)
    requires SendsRecorded(s) && db1.messages == s.db.messages
    requires forall d | 0 <= d < |db1.drafts| && db1.drafts[d].status == DraftSent ::
      d < |s.db.drafts| && s.db.drafts[d].status == DraftSent
    ensures SendsRecorded(s.(db := db1))
  {
    forall d | 0 <= d < |db1.drafts| ensures SentBacked(db1, d) {
      if db1.drafts[d].status == DraftSent { assert SentBacked(s.db, d); }
      assert HasSentMessage(db1, d) == HasSentMessage(s.db, d);
    }
  }

  /** Changing statuses of drafts moves no version. */
  lemma {:induction false} CountSameSkeleton(a: seq<Draft>, b: seq<Draft>, q: nat)
    requires |a| == |b| && forall i | 0 <= i < |a| :: a[i].sequenceId == b[i].sequenceId
    ensures CountOf(a, q) == CountOf(b, q)
  {
    if a == [] {
    } else {
      CountSameSkeleton(a[..|a| - 1], b[..|b| - 1], q);
    }
  }

  lemma VersionsSameSkeleton(a: seq<Draft>, b: seq<Draft>)
    requires |a| == |b| && VersionsExact(a)
    requires forall i | 0 <= i < |a| :: a[i].sequenceId == b[i].sequenceId && a[i].version == b[i].version
    ensures VersionsExact(b)
  {
    forall d | 0 <= d < |b| ensures VersionExact(b, d) {
      assert VersionExact(a, d);
      CountSameSkeleton(a[..d + 1], b[..d + 1], b[d].sequenceId);
    }
  }

  /** The newest version of a sequence is its number of drafts. */
  lemma {:induction false} MaxVersionIsCount(drafts: seq<Draft>, q: nat)
    requires VersionsExact(drafts)
    ensures MaxVersion(drafts, q) == CountOf(drafts, q)
  {
    if drafts == [] {
    } else {
      var n := |drafts| - 1;
      assert drafts[..n + 1] == drafts && VersionExact(drafts, n);
      forall d | 0 <= d < n ensures VersionExact(drafts[..n], d) {
        assert VersionExact(drafts, d) && drafts[..n][..d + 1] == drafts[..d + 1];
      }
      MaxVersionIsCount(drafts[..n], q);
    }
  }

  lemma AppendKeepsVersions(drafts: seq<Draft>, row: Draft)
    requires VersionsExact(drafts) && row.version == MaxVersion(drafts, row.sequenceId) + 1
    ensures VersionsExact(drafts + [row])
  {
    var all := drafts + [row];
    MaxVersionIsCount(drafts, row.sequenceId);
    assert all[..|all| - 1] == drafts;
    forall d | 0 <= d < |all| ensures VersionExact(all, d) {
      if d < |drafts| {
        assert VersionExact(drafts, d);
        assert all[..d + 1] == drafts[..d + 1];
      } else {
        assert all[..d + 1] == all;
      }
    }
  }

  lemma LinkedGrows(db: Db, db1: Db)
    requires RowsOk(db) && db1.tenantId == db.tenantId && |db.sequences| <= |db1.sequences|
    requires Grows(db.drafts, db1.drafts)
    requires forall d | |db.drafts| <= d < |db1.drafts| :: DraftOk(db1, db1.drafts[d])
    requires forall a | 0 <= a < |db1.approvals| ::
      if a < |db.approvals| then db1.approvals[a] == db.approvals[a].(active := db1.approvals[a].active)
      else ApprovalOk(db1.drafts, db1.approvals[a])
    requires forall m | 0 <= m < |db1.messages| ::
      if m < |db.messages| then db1.messages[m] == db.messages[m].(status := db1.messages[m].status,
        providerMessageId := db1.messages[m].providerMessageId, crmSync := db1.messages[m].crmSync)
      else MessageOk(db1.tenantId, db1.drafts, db1.messages[m])
    ensures RowsOk(db1)
  {
    forall d | 0 <= d < |db1.drafts| ensures DraftOk(db1, db1.drafts[d]) {
      if d < |db.drafts| { assert DraftOk(db, db.drafts[d]); }
    }
    forall a | 0 <= a < |db1.approvals| ensures ApprovalOk(db1.drafts, db1.approvals[a]) {
      if a < |db.approvals| { assert ApprovalOk(db.drafts, db.approvals[a]); }
    }
    forall m | 0 <= m < |db1.messages| ensures MessageOk(db1.tenantId, db1.drafts, db1.messages[m]) {
      if m < |db.messages| { assert MessageOk(db.tenantId, db.drafts, db.messages[m]); }
    }
  }

  lemma ActiveAfterSupersede(db: Db, q: nat, purpose: Purpose, d: nat)
    requires d < |db.drafts|
    ensures HasActive(SupersedePrior(db, q, purpose), d) <==> HasActive(db, d) && !IsPrior(db.drafts[d], q, purpose)
  {
    var db1 := SupersedePrior(db, q, purpose);
    if HasActive(db, d) && !IsPrior(db.drafts[d], q, purpose) {
      var a :| 0 <= a < |db.approvals| && db.approvals[a].draftId == d && db.approvals[a].active;
      assert db1.approvals[a].active;
    }
  }

  lemma ActiveAfterRevoke(db: Db, d: nat, e: nat)
    ensures HasActive(RevokeActive(db, d), e) <==> HasActive(db, e) && e != d
  {
    var db1 := RevokeActive(db, d);
    if HasActive(db, e) && e != d {
      var a :| 0 <= a < |db.approvals| && db.approvals[a].draftId == e && db.approvals[a].active;
      assert db1.approvals[a].active;
    }
  }

  lemma ActiveAfterInsert(db: Db, d: nat, draft: Draft, e: nat)
    ensures HasActive(InsertApproval(db, d, draft), e) <==> HasActive(db, e) || e == d
  {
    var db1 := InsertApproval(db, d, draft);
    if HasActive(db, e) {
      var a :| 0 <= a < |db.approvals| && db.approvals[a].draftId == e && db.approvals[a].active;
      assert db1.approvals[a].active;
    }
    assert db1.approvals[|db.approvals|].draftId == d;
  }

  /** Whatever stays open and unsent was so before. */
  lemma OneOpenShrinks(db: Db, db1: Db)
    requires OneOpen(db) && |db1.drafts| == |db.drafts| && Grows(db.drafts, db1.drafts)
    requires forall d | 0 <= d < |db.drafts| && OpenUnsent(db1, d) :: OpenUnsent(db, d)
    ensures OneOpen(db1)
  {}

  lemma SupersedeCoherent(db: Db, q: nat, purpose: Purpose)
    requires ApprovalCoherent(db)
    ensures ApprovalCoherent(SupersedePrior(db, q, purpose))
  {
    var db1 := SupersedePrior(db, q, purpose);
    forall d | 0 <= d < |db1.drafts| ensures ApprovalAgrees(db1, d) {
      ActiveAfterSupersede(db, q, purpose, d);
      assert ApprovalAgrees(db, d);
    }
  }

  lemma SupersedeKeeps(s: Sdr, q: nat, purpose: Purpose)
    requires Inv(s)
    ensures Inv(s.(db := SupersedePrior(s.db, q, purpose)))
  {
    var db, db1 := s.db, SupersedePrior(s.db, q, purpose);
    LinkedGrows(db, db1);
    SupersedeCoherent(db, q, purpose);
    VersionsSameSkeleton(db.drafts, db1.drafts);
    OneOpenShrinks(db, db1);
    SendsRecordedSame(s, db1);
  }

  lemma NoPriorLeft(db: Db, q: nat, purpose: Purpose)
    ensures forall d | 0 <= d < |db.drafts| :: !IsPrior(SupersedePrior(db, q, purpose).drafts[d], q, purpose)
  {}

  /** After superseding, nothing of the purpose is open, so the new draft is the only one. */
  lemma InsertKeepsOneOpen(db: Db, q: nat, purpose: Purpose, version: nat, text: (string, string))
    requires OneOpen(db)
    requires forall d | 0 <= d < |db.drafts| :: !IsPrior(db.drafts[d], q, purpose)
    ensures OneOpen(InsertDraft(db, q, version, purpose, text))
  {
    var db1 := InsertDraft(db, q, version, purpose, text);
    forall d | 0 <= d < |db.drafts| ensures OpenUnsent(db1, d) == OpenUnsent(db, d) {}
  }

  lemma InsertCoherent(db: Db, q: nat, version: nat, purpose: Purpose, text: (string, string))
    requires RowsOk(db) && ApprovalCoherent(db)
    ensures ApprovalCoherent(InsertDraft(db, q, version, purpose, text))
  {
    var db1 := InsertDraft(db, q, version, purpose, text);
    forall d | 0 <= d < |db1.drafts| ensures ApprovalAgrees(db1, d) {
      assert HasActive(db1, d) == HasActive(db, d);
      if d < |db.drafts| {
        assert ApprovalAgrees(db, d);
      } else {
        assert forall a | 0 <= a < |db.approvals| :: ApprovalOk(db.drafts, db.approvals[a]);
      }
    }
  }

  lemma InsertDraftKeeps(s: Sdr, q: nat, purpose: Purpose, text: (string, string))
    requires Inv(s) && q < |s.db.sequences|
    requires forall d | 0 <= d < |s.db.drafts| :: !IsPrior(s.db.drafts[d], q, purpose)
    ensures Inv(s.(db := InsertDraft(s.db, q, MaxVersion(s.db.drafts, q) + 1, purpose, text)))
  {
    var version := MaxVersion(s.db.drafts, q) + 1;
    var db1 := InsertDraft(s.db, q, version, purpose, text);
    LinkedGrows(s.db, db1);
    InsertCoherent(s.db, q, version, purpose, text);
    AppendKeepsVersions(s.db.drafts, db1.drafts[|s.db.drafts|]);
    InsertKeepsOneOpen(s.db, q, purpose, version, text);
    SendsRecordedSame(s, db1);
  }

  lemma InsertSupersededKeeps(s: Sdr, q: nat, purpose: Purpose, text: (string, string))
    requires Inv(s) && q < |s.db.sequences|
    requires forall d | 0 <= d < |s.db.drafts| :: !IsPrior(s.db.drafts[d], q, purpose)
    ensures Inv(s.(db := InsertLatest(s.db, q, purpose, text)))
  {
    hide Inv;
    var s1 := s.(db := InsertDraft(s.db, q, MaxVersion(s.db.drafts, q) + 1, purpose, text));
    InsertDraftKeeps(s, q, purpose, text);
    MoveKeeps(s1, q, SeqAwaiting);
  }

  lemma InsertNextKeeps(s: Sdr, q: nat, purpose: Purpose, text: (string, string))
    requires Inv(s) && q < |s.db.sequences|
    ensures Inv(s.(db := InsertNextDraft(s.db, q, purpose, text)))
  {
    var s1 := s.(db := SupersedePrior(s.db, q, purpose));
    SupersedeKeeps(s, q, purpose);
    NoPriorLeft(s.db, q, purpose);
    InsertSupersededKeeps(s1, q, purpose, text);
    assert s1.(db := InsertNextDraft(s.db, q, purpose, text)) == s.(db := InsertNextDraft(s.db, q, purpose, text));
  }

  lemma CreateDraftKeeps(s: Sdr, q: nat, purpose: Purpose, env: DraftEnv)
    requires Inv(s)
    ensures Inv(s.(db := CreateDraft(s.db, q, purpose, env).0))
    ensures |CreateDraft(s.db, q, purpose, env).0.sequences| == |s.db.sequences|
  {
    hide Inv;
    var db1 := if purpose == Meeting then InsertBooking(s.db, q) else s.db;
    OnlySequences(s, db1);
    if q < |s.db.sequences| && env.text.Some? {
      InsertNextKeeps(s.(db := db1), q, purpose, env.text.value);
    }
  }

  lemma ApproveCoherent(db: Db, d: nat)
    requires ApprovalCoherent(db) && d < |db.drafts|
    ensures ApprovalCoherent(SetDraft(InsertApproval(db, d, db.drafts[d]), d, DraftApproved))
  {
    var db1 := InsertApproval(db, d, db.drafts[d]);
    var db2 := SetDraft(db1, d, DraftApproved);
    forall e | 0 <= e < |db2.drafts| ensures ApprovalAgrees(db2, e) {
      ActiveAfterInsert(db, d, db.drafts[d], e);
      assert HasActive(db2, e) == HasActive(db1, e);
      assert ApprovalAgrees(db, e);
    }
  }

  lemma ApproveKeeps(s: Sdr, d: nat)
    requires Inv(s)
    ensures Inv(s.(db := ApproveDraft(s.db, d).0))
  {
    if ApproveDraft(s.db, d).1.Done? {
      var db := s.db;
      var db2 := SetDraft(InsertApproval(db, d, db.drafts[d]), d, DraftApproved);
      ApprovedKeeps(s, d);
      hide Inv;
      MoveKeeps(s.(db := db2), db.drafts[d].sequenceId, SeqApproved);
    }
  }

  lemma ApprovedKeeps(s: Sdr, d: nat)
    requires Inv(s) && d < |s.db.drafts| && Open(s.db.drafts[d].status)
    ensures Inv(s.(db := SetDraft(InsertApproval(s.db, d, s.db.drafts[d]), d, DraftApproved)))
  {
    hide HasSentMessage, HasActive, VersionExact, OncePerKey, MessageRecorded;
    var db := s.db;
    var db2 := SetDraft(InsertApproval(db, d, db.drafts[d]), d, DraftApproved);
    assert RowsOk(db2) by { assert DraftOk(db, db.drafts[d]); LinkedGrows(db, db2); }
    hide DraftOk, ApprovalOk, MessageOk;
    ApproveCoherent(db, d);
    assert VersionsExact(db2.drafts) by { VersionsSameSkeleton(db.drafts, db2.drafts); }
    OpenStaysOpen(db, db2, d);
    SendsRecordedSame(s, db2);
  }

  /** One draft that was open, or has a SENT message, may change status freely. */
  lemma OpenStaysOpen(db: Db, db1: Db, d: nat)
    requires OneOpen(db) && d < |db.drafts| == |db1.drafts| && db1.messages == db.messages
    requires db1.drafts == db.drafts[d := db.drafts[d].(status := db1.drafts[d].status)]
    requires Open(db.drafts[d].status) || HasSentMessage(db, d) || !Open(db1.drafts[d].status)
    ensures OneOpen(db1)
  {
    forall e | 0 <= e < |db.drafts| && OpenUnsent(db1, e) ensures OpenUnsent(db, e) {
      assert HasSentMessage(db1, e) == HasSentMessage(db, e);
    }
    OneOpenShrinks(db, db1);
  }

  lemma WithdrawCoherent(db: Db, d: nat, status: DraftStatus)
    requires ApprovalCoherent(db) && d < |db.drafts| && status in {DraftAwaiting, DraftRejected}
    ensures ApprovalCoherent(SetDraft(RevokeActive(db, d), d, status))
  {
    var db1 := SetDraft(RevokeActive(db, d), d, status);
    forall e | 0 <= e < |db1.drafts| ensures ApprovalAgrees(db1, e) {
      ActiveAfterRevoke(db, d, e);
      assert HasActive(db1, e) == HasActive(RevokeActive(db, d), e);
      assert ApprovalAgrees(db, e);
    }
  }

  lemma WithdrawKeeps(s: Sdr, d: nat, status: DraftStatus)
    requires Inv(s) && d < |s.db.drafts|
    requires (status == DraftAwaiting && HasActive(s.db, d)) || status == DraftRejected
    ensures Inv(s.(db := SetDraft(RevokeActive(s.db, d), d, status)))
  {
    var db := s.db;
    var db1 := SetDraft(RevokeActive(db, d), d, status);
    assert ApprovalAgrees(db, d) && SentBacked(db, d);
    LinkedGrows(db, db1);
    WithdrawCoherent(db, d, status);
    VersionsSameSkeleton(db.drafts, db1.drafts);
    OpenStaysOpen(db, db1, d);
    SendsRecordedSame(s, db1);
  }

  /** Message rows of distinct drafts have distinct keys, so one draft has one row. */
  lemma OneRowPerDraft(s: Sdr, m: nat, n: nat)
    requires RowsOk(s.db) && SendsRecorded(s)
    requires m < |s.db.messages| && n < |s.db.messages| && s.db.messages[m].draftId == s.db.messages[n].draftId
    ensures m == n
  {
    assert MessageOk(s.db.tenantId, s.db.drafts, s.db.messages[m]);
    assert MessageOk(s.db.tenantId, s.db.drafts, s.db.messages[n]);
  }

  /** A later table of the provider records every message the earlier one did. */
  lemma SendsRecordedUpdate(s: Sdr, m: nat, row: Message, s1: Sdr)
    requires SendsRecorded(s) && m < |s.db.messages| && row.key == s.db.messages[m].key
    requires OncePerKey(s1.mail) && s.mail.sentByKey.Keys <= s1.mail.sentByKey.Keys
    requires s1.db.messages == s.db.messages[m := row] && MessageRecorded(s1.mail, row)
    requires forall d | 0 <= d < |s1.db.drafts| :: SentBacked(s1.db, d)
    ensures SendsRecorded(s1)
  {
    forall n | 0 <= n < |s1.db.messages| ensures MessageRecorded(s1.mail, s1.db.messages[n]) {
      if n != m { assert MessageRecorded(s.mail, s.db.messages[n]); }
    }
  }

  lemma SentElsewhere(db: Db, m: nat, row: Message, e: nat)
    requires m < |db.messages| && row.draftId == db.messages[m].draftId && e != row.draftId
    ensures HasSentMessage(SetMessage(db, m, row), e) == HasSentMessage(db, e)
  {
    var db1 := SetMessage(db, m, row);
    if HasSentMessage(db, e) {
      var n :| 0 <= n < |db.messages| && db.messages[n].draftId == e && db.messages[n].status == MsgSent;
      assert db1.messages[n].status == MsgSent;
    }
  }

  /** Writing the one message row of draft d leaves d with a SENT message exactly when the row is SENT. */
  lemma SentHere(s: Sdr, m: nat, row: Message)
    requires RowsOk(s.db) && SendsRecorded(s) && m < |s.db.messages| && row.draftId == s.db.messages[m].draftId
    ensures HasSentMessage(SetMessage(s.db, m, row), row.draftId) <==> row.status == MsgSent
  {
    var db1 := SetMessage(s.db, m, row);
    forall n | 0 <= n < |db1.messages| && db1.messages[n].draftId == row.draftId ensures n == m {
      OneRowPerDraft(s, m, n);
    }
    assert db1.messages[m] == row;
  }

  /** The tables after a provider answer: the row SENT together with its draft, or FAILED alone. */
  function Recorded(db: Db, m: nat, row: Message): Db
    requires m < |db.messages| && row.draftId < |db.drafts|
  {
    var db1 := SetMessage(db, m, row);
    if row.status == MsgSent then SetDraft(db1, row.draftId, DraftSent) else db1
  }

  lemma RecordedSends(s: Sdr, m: nat, row: Message)
    requires RowsOk(s.db) && SendsRecorded(s) && m < |s.db.messages|
    requires row.draftId == s.db.messages[m].draftId && row.draftId < |s.db.drafts| && s.db.messages[m].status != MsgSent
    ensures !HasSentMessage(s.db, row.draftId)
    ensures forall e :: HasActive(Recorded(s.db, m, row), e) == HasActive(s.db, e)
    ensures HasSentMessage(Recorded(s.db, m, row), row.draftId) == (row.status == MsgSent)
    ensures forall e | e != row.draftId :: HasSentMessage(Recorded(s.db, m, row), e) == HasSentMessage(s.db, e)
  {
    var db, db2 := s.db, Recorded(s.db, m, row);
    SentHere(s, m, row);
    SentHere(s, m, db.messages[m]);
    assert SetMessage(db, m, db.messages[m]) == db;
    assert forall e :: HasSentMessage(db2, e) == HasSentMessage(SetMessage(db, m, row), e);
    forall e | e != row.draftId ensures HasSentMessage(db2, e) == HasSentMessage(db, e) { SentElsewhere(db, m, row, e); }
  }

  /** Writing a provider answer keeps the invariant. */
  lemma RecordKeeps(s: Sdr, mail: Mailer, m: nat, row: Message)
    requires Inv(s) && m < |s.db.messages| && HasActive(s.db, row.draftId)
    requires row == s.db.messages[m].(status := row.status, providerMessageId := row.providerMessageId, crmSync := row.crmSync)
    requires row.draftId < |s.db.drafts| && s.db.messages[m].status != MsgSent
    requires OncePerKey(mail) && s.mail.sentByKey.Keys <= mail.sentByKey.Keys && MessageRecorded(mail, row)
    ensures Inv(Sdr(Recorded(s.db, m, row), mail))
  {
    hide HasSentMessage, HasActive, DraftOk, ApprovalOk, MessageOk, MessageRecorded, VersionExact, OncePerKey;
    var db, d, db2 := s.db, row.draftId, Recorded(s.db, m, row);
    assert ApprovalAgrees(db, d) && SentBacked(db, d);
    RecordedSends(s, m, row);
    assert RowsOk(db2) by { LinkedGrows(db, db2); }
    assert ApprovalCoherent(db2) by { CoherentFrom(db, db2); }
    assert VersionsExact(db2.drafts) by { VersionsSameSkeleton(db.drafts, db2.drafts); }
    assert OneOpen(db2) by { OneOpenShrinks(db, db2); }
    forall e | 0 <= e < |db2.drafts| ensures SentBacked(db2, e) { assert SentBacked(db, e); }
    assert SendsRecorded(Sdr(db2, mail)) by { SendsRecordedUpdate(s, m, row, Sdr(db2, mail)); }
  }

  /** The row after the provider's answer, and what the answer leaves in the tables. */
  function AnsweredRow(row: Message, answer: Option<ProviderMessageId>, crmOk: bool): Message
  {
    match answer
    case None => row.(status := MsgFailed, crmSync := SyncNone)
    case Some(id) =>
      row.(status := MsgSent, providerMessageId := Some(id), crmSync := if crmOk then SyncCompleted else SyncFailed)
  }

  lemma DeliverRecords(s: Sdr, d: nat, m: nat, env: SendEnv)
    requires d < |s.db.drafts| && s.db.drafts[d].sequenceId < |s.db.sequences| && m < |s.db.messages|
    requires s.db.messages[m].draftId == d
    ensures var (mail, answer) := SendEmail(s.mail, SendInputOf(s.db, d, env.fixture));
      var db2 := Recorded(s.db, m, AnsweredRow(s.db.messages[m], answer, env.crmOk));
      Deliver(s, d, m, env).0
        == Sdr(if answer.Some? then MoveSequence(db2, s.db.drafts[d].sequenceId, SeqActive) else db2, mail)
  {
    var answer := SendEmail(s.mail, SendInputOf(s.db, d, env.fixture)).1;
    hide SendEmail, SendInputOf;
    assert AnsweredRow(s.db.messages[m], answer, env.crmOk).draftId == d;
    match answer
    case None =>
    case Some(_) =>
  }

  /** What the provider answers is what its table holds afterwards. */
  lemma AnswerRecorded(s: Sdr, d: nat, m: nat, env: SendEnv)
    requires RowsOk(s.db) && SendsRecorded(s) && m < |s.db.messages| && s.db.messages[m].draftId == d
    requires d < |s.db.drafts| && s.db.drafts[d].sequenceId < |s.db.sequences|
    ensures var (mail, answer) := SendEmail(s.mail, SendInputOf(s.db, d, env.fixture));
      && OncePerKey(mail) && s.mail.sentByKey.Keys <= mail.sentByKey.Keys
      && MessageRecorded(mail, AnsweredRow(s.db.messages[m], answer, env.crmOk))
  {
    SendKeepsOncePerKey(s.mail, SendInputOf(s.db, d, env.fixture));
    assert MessageOk(s.db.tenantId, s.db.drafts, s.db.messages[m]) && MessageRecorded(s.mail, s.db.messages[m]);
    hide OncePerKey, SentBacked, DraftOk, ApprovalOk;
  }

  /** The delivery step, once an unsent message row under the draft's key exists. */
  lemma DeliverKeeps(s: Sdr, d: nat, m: nat, env: SendEnv)
    requires Inv(s) && d < |s.db.drafts| && s.db.drafts[d].sequenceId < |s.db.sequences| && m < |s.db.messages|
    requires s.db.messages[m].draftId == d && s.db.messages[m].status != MsgSent && HasActive(s.db, d)
    ensures Inv(Deliver(s, d, m, env).0)
  {
    AnswerRecorded(s, d, m, env);
    DeliverRecords(s, d, m, env);
    hide Inv, Deliver, SendEmail, SendInputOf, OncePerKey, MessageRecorded, HasActive, Recorded;
    var (mail, answer) := SendEmail(s.mail, SendInputOf(s.db, d, env.fixture));
    var row := AnsweredRow(s.db.messages[m], answer, env.crmOk);
    RecordKeeps(s, mail, m, row);
    MoveKeeps(Sdr(Recorded(s.db, m, row), mail), s.db.drafts[d].sequenceId, SeqActive);
  }

  lemma InsertMessageKeeps(s: Sdr, d: nat, a: nat)
    requires Inv(s) && d < |s.db.drafts|
    requires FindMessage(s.db.messages, KeyOf(s.db.tenantId, d, s.db.drafts[d])).None?
    ensures Inv(s.(db := InsertMessage(s.db, s.db.drafts[d].sequenceId, d, a, KeyOf(s.db.tenantId, d, s.db.drafts[d]))))
  {
    var db := s.db;
    var db1 := InsertMessage(db, db.drafts[d].sequenceId, d, a, KeyOf(db.tenantId, d, db.drafts[d]));
    InsertedSends(db, d, a);
    assert RowsOk(db1) by { LinkedGrows(db, db1); }
    hide HasSentMessage, HasActive, DraftOk, ApprovalOk, MessageOk, VersionExact, OncePerKey;
    assert ApprovalCoherent(db1) by { CoherentFrom(db, db1); }
    assert OneOpen(db1) by { OneOpenShrinks(db, db1); }
    forall e | 0 <= e < |db1.drafts| ensures SentBacked(db1, e) { assert SentBacked(db, e); }
    forall n | 0 <= n < |db1.messages| ensures MessageRecorded(s.mail, db1.messages[n]) {
      if n < |db.messages| { assert MessageRecorded(s.mail, db.messages[n]); }
    }
  }

  /** A new row is not SENT yet. */
  lemma InsertedSends(db: Db, d: nat, a: nat)
    requires d < |db.drafts|
    ensures var db1 := InsertMessage(db, db.drafts[d].sequenceId, d, a, KeyOf(db.tenantId, d, db.drafts[d]));
      forall e :: HasSentMessage(db1, e) == HasSentMessage(db, e) && HasActive(db1, e) == HasActive(db, e)
  {
    var db1 := InsertMessage(db, db.drafts[d].sequenceId, d, a, KeyOf(db.tenantId, d, db.drafts[d]));
    forall e ensures HasSentMessage(db1, e) == HasSentMessage(db, e) && HasActive(db1, e) == HasActive(db, e) {
      if HasSentMessage(db, e) {
        var n :| 0 <= n < |db.messages| && db.messages[n].draftId == e && db.messages[n].status == MsgSent;
        assert db1.messages[n].status == MsgSent;
      }
    }
  }

  lemma FoundRowIsTheDrafts(s: Sdr, d: nat, m: nat)
    requires Inv(s) && d < |s.db.drafts| && m < |s.db.messages|
    requires s.db.messages[m].key == KeyOf(s.db.tenantId, d, s.db.drafts[d])
    ensures s.db.messages[m].draftId == d
  {
    assert MessageOk(s.db.tenantId, s.db.drafts, s.db.messages[m]);
  }

  lemma SendKeeps(s: Sdr, d: nat, env: SendEnv)
    requires Inv(s)
    ensures Inv(ExecuteSend(s, d, env).0)
  {
    hide Inv, Deliver;
    var gate := AssertSendAllowed(s.db, d, env.candidateOk);
    if !s.db.agentPaused && gate.Ok? {
      var key := KeyOf(s.db.tenantId, d, s.db.drafts[d]);
      var found := FindMessage(s.db.messages, key);
      if found.Some? {
        FoundRowIsTheDrafts(s, d, found.value);
        if s.db.messages[found.value].status != MsgSent { DeliverKeeps(s, d, found.value, env); }
      } else {
        InsertMessageKeeps(s, d, gate.value);
        var db1 := InsertMessage(s.db, s.db.drafts[d].sequenceId, d, gate.value, key);
        assert db1.approvals[gate.value].active;
        DeliverKeeps(s.(db := db1), d, |s.db.messages|, env);
      }
    }
  }

  lemma ReplyKeeps(s: Sdr, e: ReplyEvent, replyEnv: DraftEnv, meetingEnv: DraftEnv)
    requires Inv(s)
    ensures Inv(s.(db := IngestReply(s.db, e, replyEnv, meetingEnv).0))
  {
    var found := Correlate(s.db, e);
    if !SeenReply(s.db.replies, e.providerEventId) && found.Ok? {
      var (q, m) := found.value;
      var db1 := SetSequence(InsertReply(s.db, q, m, e.providerEventId, e.classification), q, ReplyStatus(e.classification));
      OnlySequences(s, db1);
      CreateDraftKeeps(s.(db := db1), q, Reply, replyEnv);
      CreateDraftKeeps(s.(db := CreateDraft(db1, q, Reply, replyEnv).0), q, Meeting, meetingEnv);
    }
  }

  lemma ApplyKeeps(s: Sdr, c: Call)
    requires Inv(s)
    ensures Inv(Apply(s, c).0)
  {
    hide Inv;
    match c
    case CallCreateSequence(email, candidateOk, researchOk, draft) =>
      var db1 := s.db.(sequences := s.db.sequences + [Sequence(SeqDrafting, email)]);
      OnlySequences(s, db1);
      if draft.Some? { CreateDraftKeeps(s.(db := db1), |s.db.sequences|, Outreach, draft.value); }
    case CallCreateDraft(q, purpose, env) => CreateDraftKeeps(s, q, purpose, env);
    case CallApprove(d) => ApproveKeeps(s, d);
    case CallRevoke(d) => if RevokeApproval(s.db, d).1.Done? { WithdrawKeeps(s, d, DraftAwaiting); }
    case CallReject(d) => if RejectDraft(s.db, d).1.Done? { WithdrawKeeps(s, d, DraftRejected); }
    case CallSend(d, env) => SendKeeps(s, d, env);
    case CallReply(e, replyEnv, meetingEnv) => ReplyKeeps(s, e, replyEnv, meetingEnv);
    case CallConfirm(q, ok) => OnlySequences(s, ConfirmMeeting(s.db, q, ok).0);
    case CallSetPaused(p) => OnlySequences(s, s.db.(agentPaused := p));
  }

  lemma {:induction false} RunKeeps(s: Sdr, calls: seq<Call>)
    requires Inv(s)
    ensures Inv(Run(s, calls))
  {
    if calls == [] {
    } else {
      RunKeeps(s, calls[..|calls| - 1]);
      ApplyKeeps(Run(s, calls[..|calls| - 1]), calls[|calls| - 1]);
    }
  }
}
