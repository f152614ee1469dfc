/**
 Exactly when a rejected or superseded draft is safe for good at the granularity of
 statements: no active approval is left to revoke, and no approve, revoke or send begun
 earlier can still get through to its status write.
*/
module SdrFinalDrafts {
  import opened Wrappers
  import opened OutboundProvider
  import opened SdrModel
  import opened SdrRows
  import opened SdrThreads
  import opened SdrThreadSafety
  import opened SdrThreadTheorems
  import opened SdrRaces
  import Sent = SdrSentRows

  // ------------------------------------------------- who can still get through

  /** The stop check of the send would pass now. */
  predicate Live(db: Db, c: SendCtx)
  {
    var q := c.draft.sequenceId;
    q < |db.sequences| && !Stopped(db.sequences[q].status)
  }

  /** The provider would answer with an id. */
  predicate Accepts(db: Db, mail: Mailer, c: SendCtx)
  {
    KeyOf(db.tenantId, c.d, c.draft) in mail.sentByKey || c.fixture == Success
  }

  function RowFor(db: Db, c: SendCtx): Option<nat>
  {
    FindMessage(db.messages, KeyOf(db.tenantId, c.d, c.draft))
  }

  /** The message lookup finds no row, or one that is not SENT, or one a send still at work can fail. */
  ghost predicate Free(w: World, c: SendCtx)
  {
    var m := RowFor(w.db, c);
    m.None? || !Sent.Unheld(w, m.value)
  }

  /** A send of draft d that can still reach the SENT mark of the draft. */
  ghost predicate SendRevives(w: World, t: Thread, d: nat)
  {
    match t
    case SendReadCandidate(c) => c.d == d && Live(w.db, c) && Accepts(w.db, w.mail, c) && Free(w, c)
    case SendFindMessage(c) => c.d == d && Live(w.db, c) && Accepts(w.db, w.mail, c) && Free(w, c)
    case SendCreateMessage(c) => c.d == d && Live(w.db, c) && Accepts(w.db, w.mail, c) && RowFor(w.db, c).None?
    case SendLiveCheck(c, _) => c.d == d && Live(w.db, c) && Accepts(w.db, w.mail, c)
    case SendMark(c, _) => c.d == d && Accepts(w.db, w.mail, c)
    case SendProvider(c, _) => c.d == d && Accepts(w.db, w.mail, c)
    case SendRecord(c, _, _) => c.d == d
    case SendDraft(c, _) => c.d == d
    case _ => false
  }

  /** A decision on draft d past its read. */
  predicate DecisionRevives(t: Thread, d: nat)
  {
    (t.ApproveInsert? && t.d == d) || (t.ApproveMark? && t.d == d) || (t.RevokeMark? && t.d == d)
  }

  ghost predicate Revives(w: World, t: Thread, d: nat)
  {
    DecisionRevives(t, d) || SendRevives(w, t, d)
  }

  ghost predicate CanReturn(w: World, d: nat)
  {
    HasActive(w.db, d) || exists tid | 0 <= tid < |w.threads| :: Revives(w, w.threads[tid], d)
  }

  ghost predicate Settled(w: World, d: nat)
  {
    Safe(w) && d < |w.db.drafts| && Final(w.db.drafts[d].status) && !CanReturn(w, d)
  }

  // ---------------------------------------- what cannot become possible again

  /** Every send of draft d that could not get through before the step cannot after it. */
  ghost predicate NoWorse(w: World, w1: World, d: nat)
  {
    forall c: SendCtx | c.d == d && c.draft.sequenceId < |w.db.sequences| ::
      && (Live(w1.db, c) ==> Live(w.db, c))
      && (Accepts(w1.db, w1.mail, c) ==> Accepts(w.db, w.mail, c))
      && (Free(w1, c) ==> Free(w, c))
      && (RowFor(w1.db, c).None? ==> RowFor(w.db, c).None?)
  }

  lemma StoppedStays(w: World, step: Step, c: SendCtx)
    requires c.draft.sequenceId < |w.db.sequences| && Live(Take(w, step).db, c)
    ensures Live(w.db, c)
  {
    if !Live(w.db, c) {
      TakeKeepsStopped(w, step, c.draft.sequenceId);
      hide Take;
    }
  }

  /** A key becomes known only through a send of its own draft that the provider accepts. */
  lemma AcceptsOnlyThroughRevival(w: World, step: Step, c: SendCtx)
    requires Accepts(Take(w, step).db, Take(w, step).mail, c) && !Accepts(w.db, w.mail, c)
    ensures CanReturn(w, c.d)
  {
    OnlyProviderStepsCall(w, step);
    TenantStays(w, step);
    hide Take;
    assert CallsProvider(w, step);
    var t := w.threads[step.tid];
    assert InputOf(w.db.tenantId, t.c).key == KeyOf(w.db.tenantId, t.c.d, t.c.draft);
    assert Revives(w, t, c.d);
  }

  lemma TenantStays(w: World, step: Step)
    ensures Take(w, step).db.tenantId == w.db.tenantId
  {
    if Executes(w, step) { MessagesWritten(w.db, w.threads[step.tid], step.ans); }
    hide Write;
  }

  lemma {:induction false} SameKeysSameRow(a: seq<Message>, b: seq<Message>, key: SendKey)
    requires |a| <= |b| && forall m | 0 <= m < |a| :: b[m].key == a[m].key
    requires forall m | |a| <= m < |b| :: b[m].key != key
    ensures FindMessage(b, key) == FindMessage(a, key)
    decreases |b|
  {
    if |b| > |a| {
      SameKeysSameRow(a, b[..|b| - 1], key);
    } else if b == [] {
    } else {
      SameKeysSameRow(a[..|a| - 1], b[..|b| - 1], key);
    }
  }

  /** Rows keep their keys, and a second row of a key is never inserted. */
  lemma WriteKeepsRowOfKey(db: Db, t: Thread, ans: Answer, key: SendKey)
    requires FindMessage(db.messages, key).Some?
    ensures FindMessage(Write(db, t, ans).messages, key) == FindMessage(db.messages, key)
  {
    MessagesWritten(db, t, ans);
    MessageRowsGrow(db, t, ans);
    NewRowHasNewKey(db, t, ans);
    hide Write, MessagesAfter;
    SameKeysSameRow(db.messages, MessagesAfter(db, t, ans), key);
  }

  lemma NewRowHasNewKey(db: Db, t: Thread, ans: Answer)
    ensures forall m | |db.messages| <= m < |MessagesAfter(db, t, ans)| ::
      FindMessage(db.messages, MessagesAfter(db, t, ans)[m].key).None?
  {}

  lemma RowStays(w: World, step: Step, c: SendCtx)
    requires RowFor(w.db, c).Some?
    ensures RowFor(Take(w, step).db, c) == RowFor(w.db, c)
  {
    TenantStays(w, step);
    if Executes(w, step) {
      WriteKeepsRowOfKey(w.db, w.threads[step.tid], step.ans, KeyOf(w.db.tenantId, c.d, c.draft));
    }
    hide Write, FindMessage;
  }

  lemma StepIsNoWorse(w: World, step: Step, d: nat)
    requires Settled(w, d)
    ensures NoWorse(w, Take(w, step), d)
  {
    var w1 := Take(w, step);
    forall c: SendCtx | c.d == d && c.draft.sequenceId < |w.db.sequences|
      ensures Live(w1.db, c) ==> Live(w.db, c)
      ensures Accepts(w1.db, w1.mail, c) ==> Accepts(w.db, w.mail, c)
      ensures Free(w1, c) ==> Free(w, c)
      ensures RowFor(w1.db, c).None? ==> RowFor(w.db, c).None?
    {
      hide Take, Safe, Live, Sent.Unheld, RowFor;
      if Live(w1.db, c) { StoppedStays(w, step, c); }
      if Accepts(w1.db, w1.mail, c) && !Accepts(w.db, w.mail, c) {
        AcceptsOnlyThroughRevival(w, step, c);
      }
      if RowFor(w.db, c).Some? {
        RowStays(w, step, c);
        if Sent.Unheld(w, RowFor(w.db, c).value) { Sent.UnheldStays(w, step, RowFor(w.db, c).value); }
      }
    }
  }

  // --------------------------------------------------- nothing gets through

  /** A thread that does not move gains nothing from another's step. */
  lemma OthersStayOut(w: World, w1: World, t: Thread, d: nat)
    requires NoWorse(w, w1, d) && InBounds(w, t, d) && !Revives(w, t, d)
    ensures !Revives(w1, t, d)
  {
    hide Live, Accepts, Free, RowFor;
  }

  /** A send of draft d knows the draft's sequence. */
  predicate InBounds(w: World, t: Thread, d: nat)
  {
    HasCtx(t) && t.c.d == d ==> t.c.draft.sequenceId < |w.db.sequences|
  }

  predicate HasCtx(t: Thread)
  {
    || t.SendReadCandidate? || t.SendFindMessage? || t.SendCreateMessage? || t.SendLiveCheck? || t.SendMark?
    || t.SendProvider? || t.SendRecord? || t.SendDraft? || t.SendActivate?
  }

  lemma CtxInBounds(w: World, w1: World, t: Thread, d: nat)
    requires Safe(w) && d < |w.db.drafts| && DbGrows(w.db, w1.db) && ThreadOk(w1.db, w1.mail, t)
    ensures InBounds(w, t, d)
  {
    assert DraftOk(w.db, w.db.drafts[d]);
    if HasCtx(t) && t.c.d == d {
      assert CtxOk(w1.db, t.c);
      assert w1.db.drafts[d] == w.db.drafts[d].(status := w1.db.drafts[d].status);
    }
    hide Safe, ThreadOk, RowsOk;
  }

  /** Where a send goes, seen from the world it read. */
  lemma SendStaysOut(w: World, t: Thread, ans: Answer, d: nat)
    requires !HasActive(w.db, d) && !SendRevives(w, t, d) && IsSend(t)
    ensures !SendRevives(w, NextSend(w.db, w.mail, t, ans), d)
  {
    if t.SendFindMessage? || t.SendCreateMessage? {
      LookupStaysOut(w, t, ans, d);
    } else if t.SendReadApproval? {
      var a := FindActive(w.db.approvals, t.d);
      hide FindActive, Live, Accepts, Free, RowFor;
    } else if t.SendReadCandidate? || t.SendLiveCheck? {
      CheckStaysOut(w, t, ans, d);
    } else {
      hide FindActive, FindMessage, Live, Free, RowFor;
    }
  }

  lemma CheckStaysOut(w: World, t: Thread, ans: Answer, d: nat)
    requires (t.SendReadCandidate? || t.SendLiveCheck?) && !SendRevives(w, t, d)
    ensures !SendRevives(w, NextSend(w.db, w.mail, t, ans), d)
  {
    hide FindActive, FindMessage, Accepts, Free, RowFor;
  }

  lemma LookupStaysOut(w: World, t: Thread, ans: Answer, d: nat)
    requires (t.SendFindMessage? || t.SendCreateMessage?) && !SendRevives(w, t, d)
    ensures !SendRevives(w, NextSend(w.db, w.mail, t, ans), d)
  {
    hide FindMessage, Live, Accepts;
  }

  lemma DecisionStaysOut(db: Db, t: Thread, ans: Answer, d: nat)
    requires d < |db.drafts| && Final(db.drafts[d].status) && !HasActive(db, d) && !DecisionRevives(t, d)
    ensures !DecisionRevives(NextOther(db, t, ans), d)
  {
    hide HasActive, SeenReply, FindByProviderId, FindBooking;
  }

  lemma NotADecision(db: Db, mail: Mailer, t: Thread, ans: Answer, d: nat)
    ensures !DecisionRevives(NextSend(db, mail, t, ans), d)
    ensures !DecisionRevives(NextDraft(db, t, ans), d)
  {
    SendsDecideNothing(db, mail, t, ans, d);
    DraftsDecideNothing(db, t, ans, d);
  }

  lemma SendsDecideNothing(db: Db, mail: Mailer, t: Thread, ans: Answer, d: nat)
    ensures !DecisionRevives(NextSend(db, mail, t, ans), d)
  {}

  lemma DraftsDecideNothing(db: Db, t: Thread, ans: Answer, d: nat)
    ensures !DecisionRevives(NextDraft(db, t, ans), d)
  {}

  /** The thread that moves does not get closer. */
  lemma MoverStaysOut(w: World, t: Thread, ans: Answer, d: nat)
    requires d < |w.db.drafts| && Final(w.db.drafts[d].status) && !HasActive(w.db, d) && !Revives(w, t, d)
    ensures !Revives(w, Next(w.db, w.mail, t, ans), d)
  {
    hide NextSend, NextDraft, NextOther, SendRevives;
    NotADecision(w.db, w.mail, t, ans, d);
    OthersAreNoSends(w.db, t, ans);
    OnlySendsRevive(w, NextDraft(w.db, t, ans), d);
    OnlySendsRevive(w, NextOther(w.db, t, ans), d);
    if IsSend(t) { SendStaysOut(w, t, ans, d); }
    DecisionStaysOut(w.db, t, ans, d);
  }

  lemma OnlySendsRevive(w: World, t: Thread, d: nat)
    ensures SendRevives(w, t, d) ==> IsSend(t)
  {}

  lemma ErrorsStayOut(w: World, t: Thread, d: nat)
    ensures !Revives(w, OnError(t), d)
  {}

  /** Only an approval begun earlier gives the draft an active approval. */
  lemma NoApprovalComes(db: Db, t: Thread, ans: Answer, d: nat)
    requires !HasActive(db, d) && !DecisionRevives(t, d)
    ensures !HasActive(Write(db, t, ans), d)
  {
    ApprovalsWritten(db, t, ans);
    hide Write;
    var rows := ApprovalsAfter(db, t);
    forall a | 0 <= a < |rows| ensures rows[a].draftId != d || !rows[a].active {
      if a < |db.approvals| { assert db.approvals[a].draftId != d || !db.approvals[a].active; }
    }
  }

  lemma StepKeepsStatus(w: World, step: Step, d: nat)
    requires Settled(w, d)
    ensures var db1 := Take(w, step).db;
      d < |db1.drafts| && Final(db1.drafts[d].status) && !HasActive(db1, d)
  {
    LeavesFinalExactlyWhen(w, step, d);
    if Executes(w, step) {
      assert !Revives(w, w.threads[step.tid], d);
      NoApprovalComes(w.db, w.threads[step.tid], step.ans, d);
    }
    hide Write, Safe, SendRevives;
  }

  lemma SettledStays(w: World, step: Step, d: nat)
    requires Settled(w, d)
    ensures Settled(Take(w, step), d)
  {
    TakeKeepsSafe(w, step);
    StepKeepsStatus(w, step, d);
    StepIsNoWorse(w, step, d);
    var w1 := Take(w, step);
    forall tid | 0 <= tid < |w1.threads| ensures !Revives(w1, w1.threads[tid], d) {
      ThreadStaysOut(w, step, d, tid);
    }
    hide Take, Revives;
  }

  lemma ThreadStaysOut(w: World, step: Step, d: nat, tid: nat)
    requires Settled(w, d) && NoWorse(w, Take(w, step), d) && tid < |Take(w, step).threads|
    ensures !Revives(Take(w, step), Take(w, step).threads[tid], d)
  {
    var w1 := Take(w, step);
    if tid < |w.threads| && w1.threads[tid] == w.threads[tid] {
      assert ThreadOk(w.db, w.mail, w.threads[tid]);
      CtxInBounds(w, w, w.threads[tid], d);
      OthersStayOut(w, w1, w.threads[tid], d);
    } else if step.Run? {
      RunnerStaysOut(w, step, d);
    } else if step.FailBefore? || step.FailAfter? {
      ErrorsStayOut(w1, w.threads[tid], d);
    }
  }

  lemma RunnerStaysOut(w: World, step: Step, d: nat)
    requires Settled(w, d) && NoWorse(w, Take(w, step), d) && step.Run? && step.tid < |w.threads|
    ensures !Revives(Take(w, step), Take(w, step).threads[step.tid], d)
  {
    var t, w1 := w.threads[step.tid], Take(w, step);
    assert !Revives(w, t, d);
    MoverStaysOut(w, t, step.ans, d);
    var next := w1.threads[step.tid];
    assert next == Next(w.db, w.mail, t, step.ans);
    assert ThreadOk(w.db, w.mail, t);
    NextOk(w.db, w.mail, t, step.ans);
    WriteGrows(w.db, t, step.ans);
    hide Take, Next, Write, Call, Revives, ThreadOk;
    CtxInBounds(w, w1, next, d);
    OthersStayOut(w, w1, next, d);
  }

  lemma {:induction false} SettledStaysInRuns(w: World, steps: seq<Step>, d: nat)
    requires Settled(w, d)
    ensures Settled(TakeAll(w, steps), d)
  {
    hide Settled, Take;
    if steps == [] {
    } else {
      SettledStaysInRuns(w, steps[..|steps| - 1], d);
      SettledStays(TakeAll(w, steps[..|steps| - 1]), steps[|steps| - 1], d);
    }
  }

  // ------------------------------------------------------- each of them can

  /** Some continuation gives the draft another status. */
  ghost predicate Returns(w: World, d: nat)
  {
    exists steps :: Back(TakeAll(w, steps).db, d)
  }

  predicate Back(db: Db, d: nat)
  {
    d < |db.drafts| && !Final(db.drafts[d].status)
  }

  lemma ReturnsAfter(w: World, step: Step, d: nat)
    requires Returns(Take(w, step), d)
    ensures Returns(w, d)
  {
    var steps :| Back(TakeAll(Take(w, step), steps).db, d);
    TakeOne(w, step);
    TakeSum(w, [step], steps);
    hide Back, Take;
  }

  const YES := Answer(true, true, true, true, true, None)

  /** A thread at the status write itself. */
  lemma WriteReturns(w: World, tid: nat, d: nat)
    requires d < |w.db.drafts| && tid < |w.threads| && Reopens(w.threads[tid], d)
    ensures Returns(w, d)
  {
    var step := Run(tid, YES);
    TakeOne(w, step);
    if Final(w.db.drafts[d].status) {
      LeavesFinalExactlyWhen(w, step, d);
      assert Back(TakeAll(w, [step]).db, d);
    } else {
      assert Back(TakeAll(w, []).db, d);
    }
    hide Take;
  }

  lemma ApprovalReturns(w: World, tid: nat, d: nat)
    requires d < |w.db.drafts| && tid < |w.threads| && w.threads[tid].ApproveInsert? && w.threads[tid].d == d
    ensures Returns(w, d)
  {
    var draft := w.threads[tid].draft;
    ApproveInserts(w.db, w.mail, d, draft, YES);
    Runs(w, tid, YES, InsertApproval(w.db, d, draft), ApproveMark(d, draft.sequenceId));
    hide Take, Write, Next;
    WriteReturns(Take(w, Run(tid, YES)), tid, d);
    ReturnsAfter(w, Run(tid, YES), d);
  }

  /** With an ACTIVE approval left, a revoke reopens the draft. */
  lemma RevokeReturns(w: World, d: nat)
    requires d < |w.db.drafts| && HasActive(w.db, d)
    ensures Returns(w, d)
  {
    var tid := |w.threads|;
    RevokeSteps(w.db, w.mail, d);
    Spawns(w, RevokeRead(d));
    var w1 := w.(threads := w.threads + [RevokeRead(d)]);
    hide Take, Write, Next;
    Runs(w1, tid, YES, w.db, RevokeRows(d));
    var w2 := w1.(threads := w1.threads[tid := RevokeRows(d)]);
    Runs(w2, tid, YES, RevokeActive(w.db, d), RevokeMark(d));
    WriteReturns(Take(w2, Run(tid, YES)), tid, d);
    ReturnsAfter(w2, Run(tid, YES), d);
    ReturnsAfter(w1, Run(tid, YES), d);
    ReturnsAfter(w, Spawn(RevokeRead(d)), d);
  }

  lemma RevokeSteps(db: Db, mail: Mailer, d: nat)
    requires d < |db.drafts| && HasActive(db, d)
    ensures Write(db, RevokeRead(d), YES) == db && Next(db, mail, RevokeRead(d), YES) == RevokeRows(d)
    ensures Write(db, RevokeRows(d), YES) == RevokeActive(db, d) && Next(db, mail, RevokeRows(d), YES) == RevokeMark(d)
  {
    hide HasActive;
  }

  // The steps of a send, from the last back to the first.

  lemma RecordReturns(w: World, tid: nat, d: nat)
    requires d < |w.db.drafts| && tid < |w.threads| && w.threads[tid].SendRecord? && w.threads[tid].c.d == d
    ensures Returns(w, d)
  {
    var t := w.threads[tid];
    RecordStep(w.db, w.mail, t.c, t.m, t.id);
    var w1 := Take(w, Run(tid, YES));
    assert w1.threads[tid] == SendDraft(t.c, t.m) && w1.db.drafts == w.db.drafts;
    hide Take, Write, Next;
    WriteReturns(w1, tid, d);
    ReturnsAfter(w, Run(tid, YES), d);
  }

  lemma RecordStep(db: Db, mail: Mailer, c: SendCtx, m: nat, id: ProviderMessageId)
    ensures Next(db, mail, SendRecord(c, m, id), YES) == SendDraft(c, m)
    ensures Write(db, SendRecord(c, m, id), YES).drafts == db.drafts
  {}

  lemma ProviderReturns(w: World, tid: nat, d: nat)
    requires d < |w.db.drafts| && tid < |w.threads| && w.threads[tid].SendProvider? && w.threads[tid].c.d == d
    requires Accepts(w.db, w.mail, w.threads[tid].c)
    ensures Returns(w, d)
  {
    var t := w.threads[tid];
    var id := ProviderStep(w.db, w.mail, t.c, t.m);
    var w1 := Take(w, Run(tid, YES));
    assert w1.threads[tid] == SendRecord(t.c, t.m, id) && w1.db == w.db;
    hide Take, Write, Next;
    RecordReturns(w1, tid, d);
    ReturnsAfter(w, Run(tid, YES), d);
  }

  lemma ProviderStep(db: Db, mail: Mailer, c: SendCtx, m: nat) returns (id: ProviderMessageId)
    requires Accepts(db, mail, c)
    ensures Next(db, mail, SendProvider(c, m), YES) == SendRecord(c, m, id)
    ensures Write(db, SendProvider(c, m), YES) == db
  {
    id := SendEmail(mail, InputOf(db.tenantId, c)).1.value;
  }

  lemma MarkReturns(w: World, tid: nat, d: nat)
    requires d < |w.db.drafts| && tid < |w.threads| && w.threads[tid].SendMark? && w.threads[tid].c.d == d
    requires Accepts(w.db, w.mail, w.threads[tid].c)
    ensures Returns(w, d)
  {
    var t := w.threads[tid];
    MarkStep(w.db, w.mail, t.c, t.m);
    var w1 := Take(w, Run(tid, YES));
    assert w1.threads[tid] == SendProvider(t.c, t.m) && w1.mail == w.mail;
    assert w1.db.drafts == w.db.drafts && w1.db.tenantId == w.db.tenantId;
    hide Take, Write, Next;
    ProviderReturns(w1, tid, d);
    ReturnsAfter(w, Run(tid, YES), d);
  }

  lemma MarkStep(db: Db, mail: Mailer, c: SendCtx, m: nat)
    ensures Next(db, mail, SendMark(c, m), YES) == SendProvider(c, m)
    ensures var db1 := Write(db, SendMark(c, m), YES); db1.drafts == db.drafts && db1.tenantId == db.tenantId
  {}

  lemma CheckReturns(w: World, tid: nat, d: nat)
    requires d < |w.db.drafts| && tid < |w.threads| && w.threads[tid].SendLiveCheck? && w.threads[tid].c.d == d
    requires Accepts(w.db, w.mail, w.threads[tid].c) && Live(w.db, w.threads[tid].c)
    ensures Returns(w, d)
  {
    var t := w.threads[tid];
    CheckStep(w.db, w.mail, t.c, t.m);
    Runs(w, tid, YES, w.db, SendMark(t.c, t.m));
    hide Take, Write, Next;
    MarkReturns(Take(w, Run(tid, YES)), tid, d);
    ReturnsAfter(w, Run(tid, YES), d);
  }

  lemma CheckStep(db: Db, mail: Mailer, c: SendCtx, m: nat)
    requires Live(db, c)
    ensures Next(db, mail, SendLiveCheck(c, m), YES) == SendMark(c, m)
    ensures Write(db, SendLiveCheck(c, m), YES) == db
  {}

  lemma CreateReturns(w: World, tid: nat, d: nat)
    requires d < |w.db.drafts| && tid < |w.threads| && w.threads[tid].SendCreateMessage? && w.threads[tid].c.d == d
    requires Accepts(w.db, w.mail, w.threads[tid].c) && Live(w.db, w.threads[tid].c) && RowFor(w.db, w.threads[tid].c).None?
    ensures Returns(w, d)
  {
    var c := w.threads[tid].c;
    CreateStep(w.db, w.mail, c);
    var db1 := InsertMessage(w.db, c.draft.sequenceId, c.d, c.approval, KeyOf(w.db.tenantId, c.d, c.draft));
    Runs(w, tid, YES, db1, SendLiveCheck(c, |w.db.messages|));
    hide Take, Write, Next;
    CheckReturns(Take(w, Run(tid, YES)), tid, d);
    ReturnsAfter(w, Run(tid, YES), d);
  }

  lemma CreateStep(db: Db, mail: Mailer, c: SendCtx)
    requires RowFor(db, c).None?
    ensures Next(db, mail, SendCreateMessage(c), YES) == SendLiveCheck(c, |db.messages|)
    ensures Write(db, SendCreateMessage(c), YES)
         == InsertMessage(db, c.draft.sequenceId, c.d, c.approval, KeyOf(db.tenantId, c.d, c.draft))
  {}

  /** The lookup, when its row is missing or not SENT. */
  lemma LookupReturns(w: World, tid: nat, d: nat)
    requires d < |w.db.drafts| && tid < |w.threads| && w.threads[tid].SendFindMessage? && w.threads[tid].c.d == d
    requires Accepts(w.db, w.mail, w.threads[tid].c) && Live(w.db, w.threads[tid].c)
    requires RowFor(w.db, w.threads[tid].c).Some? ==> !Sent.IsSent(w.db, RowFor(w.db, w.threads[tid].c).value)
    ensures Returns(w, d)
  {
    var c := w.threads[tid].c;
    LookupStep(w.db, w.mail, c);
    var next := if RowFor(w.db, c).None? then SendCreateMessage(c) else SendLiveCheck(c, RowFor(w.db, c).value);
    Runs(w, tid, YES, w.db, next);
    hide Take, Write, Next;
    if RowFor(w.db, c).None? {
      CreateReturns(Take(w, Run(tid, YES)), tid, d);
    } else {
      CheckReturns(Take(w, Run(tid, YES)), tid, d);
    }
    ReturnsAfter(w, Run(tid, YES), d);
  }

  lemma LookupStep(db: Db, mail: Mailer, c: SendCtx)
    requires RowFor(db, c).Some? ==> !Sent.IsSent(db, RowFor(db, c).value)
    ensures Next(db, mail, SendFindMessage(c), YES)
         == if RowFor(db, c).None? then SendCreateMessage(c) else SendLiveCheck(c, RowFor(db, c).value)
    ensures Write(db, SendFindMessage(c), YES) == db
  {}

  /** A row that a send still holds can be failed first; the lookup then goes on. */
  lemma HeldLookupReturns(w: World, tid: nat, d: nat, holder: nat)
    requires d < |w.db.drafts| && tid < |w.threads| && w.threads[tid].SendFindMessage? && w.threads[tid].c.d == d
    requires Accepts(w.db, w.mail, w.threads[tid].c) && Live(w.db, w.threads[tid].c)
    requires RowFor(w.db, w.threads[tid].c).Some? && holder < |w.threads|
    requires Sent.Holds(w.threads[holder], RowFor(w.db, w.threads[tid].c).value)
    ensures Returns(w, d)
  {
    var m := RowFor(w.db, w.threads[tid].c).value;
    if w.threads[holder].SendCatch? {
      CaughtLookupReturns(w, tid, d, holder);
    } else {
      var w1 := Take(w, FailBefore(holder));
      assert w1 == w.(threads := w.threads[holder := SendCatch(m)]);
      hide Take, RowFor;
      CaughtLookupReturns(w1, tid, d, holder);
      ReturnsAfter(w, FailBefore(holder), d);
    }
  }

  lemma CaughtLookupReturns(w: World, tid: nat, d: nat, holder: nat)
    requires d < |w.db.drafts| && tid < |w.threads| && w.threads[tid].SendFindMessage? && w.threads[tid].c.d == d
    requires Accepts(w.db, w.mail, w.threads[tid].c) && Live(w.db, w.threads[tid].c)
    requires RowFor(w.db, w.threads[tid].c).Some? && holder < |w.threads|
    requires w.threads[holder] == SendCatch(RowFor(w.db, w.threads[tid].c).value)
    ensures Returns(w, d)
  {
    var c := w.threads[tid].c;
    var m := RowFor(w.db, c).value;
    CatchStep(w.db, w.mail, m);
    Runs(w, holder, YES, UpdateMessage(w.db, m, MsgFailed, SyncNone), Finished);
    RowStays(w, Run(holder, YES), c);
    hide Take, Write, Next, RowFor;
    LookupReturns(Take(w, Run(holder, YES)), tid, d);
    ReturnsAfter(w, Run(holder, YES), d);
  }

  lemma CatchStep(db: Db, mail: Mailer, m: nat)
    ensures Next(db, mail, SendCatch(m), YES) == Finished
    ensures Write(db, SendCatch(m), YES) == UpdateMessage(db, m, MsgFailed, SyncNone)
  {}

  lemma FreeLookupReturns(w: World, tid: nat, d: nat)
    requires d < |w.db.drafts| && tid < |w.threads| && w.threads[tid].SendFindMessage? && w.threads[tid].c.d == d
    requires Accepts(w.db, w.mail, w.threads[tid].c) && Live(w.db, w.threads[tid].c) && Free(w, w.threads[tid].c)
    ensures Returns(w, d)
  {
    var m := RowFor(w.db, w.threads[tid].c);
    if m.Some? && Sent.IsSent(w.db, m.value) {
      var holder :| 0 <= holder < |w.threads| && Sent.Holds(w.threads[holder], m.value);
      HeldLookupReturns(w, tid, d, holder);
    } else {
      LookupReturns(w, tid, d);
    }
  }

  lemma CandidateReturns(w: World, tid: nat, d: nat)
    requires d < |w.db.drafts| && tid < |w.threads| && w.threads[tid].SendReadCandidate? && w.threads[tid].c.d == d
    requires Accepts(w.db, w.mail, w.threads[tid].c) && Live(w.db, w.threads[tid].c) && Free(w, w.threads[tid].c)
    ensures Returns(w, d)
  {
    var c := w.threads[tid].c;
    CandidateStep(w.db, w.mail, c);
    Runs(w, tid, YES, w.db, SendFindMessage(c));
    var w1 := w.(threads := w.threads[tid := SendFindMessage(c)]);
    FreeStaysFree(w, w1, tid, c);
    hide Take, Write, Next, Free;
    FreeLookupReturns(w1, tid, d);
    ReturnsAfter(w, Run(tid, YES), d);
  }

  lemma CandidateStep(db: Db, mail: Mailer, c: SendCtx)
    ensures Next(db, mail, SendReadCandidate(c), YES) == SendFindMessage(c)
    ensures Write(db, SendReadCandidate(c), YES) == db
  {}

  lemma FreeStaysFree(w: World, w1: World, tid: nat, c: SendCtx)
    requires tid < |w.threads| && w.threads[tid].SendReadCandidate? && Free(w, c)
    requires w1 == w.(threads := w.threads[tid := SendFindMessage(c)])
    ensures Free(w1, c)
  {
    var m := RowFor(w.db, c);
    if m.Some? && Sent.IsSent(w.db, m.value) {
      var k :| 0 <= k < |w.threads| && Sent.Holds(w.threads[k], m.value);
      assert w1.threads[k] == w.threads[k];
    }
  }

  lemma RevivingThreadReturns(w: World, tid: nat, d: nat)
    requires d < |w.db.drafts| && tid < |w.threads| && Revives(w, w.threads[tid], d)
    ensures Returns(w, d)
  {
    match w.threads[tid]
    case ApproveInsert(_, _) => ApprovalReturns(w, tid, d);
    case SendReadCandidate(_) => CandidateReturns(w, tid, d);
    case SendFindMessage(_) => FreeLookupReturns(w, tid, d);
    case SendCreateMessage(_) => CreateReturns(w, tid, d);
    case SendLiveCheck(_, _) => CheckReturns(w, tid, d);
    case SendMark(_, _) => MarkReturns(w, tid, d);
    case SendProvider(_, _) => ProviderReturns(w, tid, d);
    case SendRecord(_, _, _) => RecordReturns(w, tid, d);
    case _ => WriteReturns(w, tid, d);
  }

  // ------------------------------------------------------------- the theorem

  /** Whatever interleaves, fails or crashes from here on, draft d stays REJECTED or SUPERSEDED. */
  ghost predicate StaysFinal(w: World, d: nat)
  {
    forall steps :: var db := TakeAll(w, steps).db; d < |db.drafts| && Final(db.drafts[d].status)
  }

  /**
   In every reachable world a final draft stays final in all continuations exactly when it has no
   ACTIVE approval, no approve or revoke is past its read of the draft, and no send of it can
   still reach its status write: sequence not stopped at the check, provider accepting, row free.
  */
  lemma StaysFinalExactlyWhen(w: World, d: nat)
    requires Reachable(w) && d < |w.db.drafts| && Final(w.db.drafts[d].status)
    ensures StaysFinal(w, d) <==> !CanReturn(w, d)
  {
    hide Revives, TakeAll;
    if CanReturn(w, d) {
      ReturnsWhenItCan(w, d);
      var steps :| Back(TakeAll(w, steps).db, d);
    } else {
      ReachableIsSafe(w);
      forall steps ensures var db := TakeAll(w, steps).db; d < |db.drafts| && Final(db.drafts[d].status) {
        SettledStaysInRuns(w, steps, d);
        hide Safe, CanReturn;
      }
    }
  }

  lemma ReturnsWhenItCan(w: World, d: nat)
    requires d < |w.db.drafts| && CanReturn(w, d)
    ensures Returns(w, d)
  {
    hide Revives, Returns;
    if HasActive(w.db, d) {
      RevokeReturns(w, d);
    } else {
      var tid :| 0 <= tid < |w.threads| && Revives(w, w.threads[tid], d);
      RevivingThreadReturns(w, tid, d);
    }
  }
}
