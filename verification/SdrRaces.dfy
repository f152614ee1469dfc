/**
 Where the service-call guarantees end: between statements a rejected or superseded draft can
 come back, by exactly three statements, and a finished rejection can be overtaken.
*/
module SdrRaces {
  import opened OutboundProvider
  import opened SdrModel
  import opened SdrThreads
  import opened SdrThreadSafety

  /** Statements that write a draft's status without looking at what it is now. */
  predicate Reopens(t: Thread, d: nat)
  {
    (t.ApproveMark? && t.d == d) || (t.RevokeMark? && t.d == d) || (t.SendDraft? && t.c.d == d)
  }

  /** The step carries out the next statement of a thread. */
  predicate Executes(w: World, step: Step)
  {
    (step.Run? || step.FailAfter?) && step.tid < |w.threads|
  }

  lemma WriteLeavesFinalExactlyWhen(db: Db, t: Thread, ans: Answer, d: nat)
    requires d < |db.drafts| && Final(db.drafts[d].status)
    ensures d < |Write(db, t, ans).drafts|
    ensures !Final(Write(db, t, ans).drafts[d].status) <==> Reopens(t, d)
  {
    hide Write;
    DraftsWritten(db, t, ans);
  }

  /** A rejected or superseded draft changes back exactly when such a statement, begun earlier, takes effect. */
  lemma LeavesFinalExactlyWhen(w: World, step: Step, d: nat)
    requires d < |w.db.drafts| && Final(w.db.drafts[d].status)
    ensures d < |Take(w, step).db.drafts|
    ensures !Final(Take(w, step).db.drafts[d].status) <==> Executes(w, step) && Reopens(w.threads[step.tid], d)
  {
    if Executes(w, step) {
      WriteLeavesFinalExactlyWhen(w.db, w.threads[step.tid], step.ans, d);
    }
  }

  /** The approval reads the draft, the whole rejection runs, the approval goes on. */
  function Overtaking(a: nat, d: nat, ans: Answer): seq<Step>
  {
    [Spawn(ApproveRead(d)), Run(a, ans), Spawn(RejectRead(d)), Run(a + 1, ans), Run(a + 1, ans), Run(a + 1, ans),
     Run(a, ans), Run(a, ans)]
  }

  predicate Approvable(db: Db, d: nat)
  {
    d < |db.drafts| && db.drafts[d].status == DraftAwaiting && LiveHash(db.drafts[d]) == db.drafts[d].contentHash
  }

  /** One statement of a thread, given what it writes and where it goes. */
  lemma Runs(w: World, tid: nat, ans: Answer, db: Db, next: Thread)
    requires tid < |w.threads| && !w.threads[tid].SendProvider?
    requires Write(w.db, w.threads[tid], ans) == db && Next(w.db, w.mail, w.threads[tid], ans) == next
    ensures Take(w, Run(tid, ans)) == World(db, w.mail, w.threads[tid := next])
  {
    hide Write, Next;
  }

  lemma ApproveReads(db: Db, mail: Mailer, d: nat, ans: Answer)
    requires Approvable(db, d)
    ensures Write(db, ApproveRead(d), ans) == db && Next(db, mail, ApproveRead(d), ans) == ApproveInsert(d, db.drafts[d])
  {}

  lemma ApproveInserts(db: Db, mail: Mailer, d: nat, draft: Draft, ans: Answer)
    ensures Write(db, ApproveInsert(d, draft), ans) == InsertApproval(db, d, draft)
    ensures Next(db, mail, ApproveInsert(d, draft), ans) == ApproveMark(d, draft.sequenceId)
  {}

  lemma ApproveMarks(db: Db, mail: Mailer, d: nat, q: nat, ans: Answer)
    requires d < |db.drafts|
    ensures Write(db, ApproveMark(d, q), ans) == SetDraft(db, d, DraftApproved)
    ensures Next(db, mail, ApproveMark(d, q), ans) == ApproveMove(q)
  {}

  lemma RejectReads(db: Db, mail: Mailer, d: nat, ans: Answer)
    requires d < |db.drafts| && db.drafts[d].status == DraftAwaiting
    ensures Write(db, RejectRead(d), ans) == db && Next(db, mail, RejectRead(d), ans) == RejectRows(d)
  {}

  lemma RejectRevokes(db: Db, mail: Mailer, d: nat, ans: Answer)
    ensures Write(db, RejectRows(d), ans) == RevokeActive(db, d) && Next(db, mail, RejectRows(d), ans) == RejectMark(d)
  {}

  lemma RejectMarks(db: Db, mail: Mailer, d: nat, ans: Answer)
    requires d < |db.drafts|
    ensures Write(db, RejectMark(d), ans) == SetDraft(db, d, DraftRejected) && Next(db, mail, RejectMark(d), ans) == Finished
  {}

  lemma Spawns(w: World, t: Thread)
    requires Initial(t)
    ensures Take(w, Spawn(t)) == w.(threads := w.threads + [t])
  {}

  lemma ApprovalReads(w: World, d: nat, ans: Answer)
    requires Approvable(w.db, d)
    ensures TakeAll(w, [Spawn(ApproveRead(d)), Run(|w.threads|, ans), Spawn(RejectRead(d))])
         == w.(threads := w.threads + [ApproveInsert(d, w.db.drafts[d]), RejectRead(d)])
  {
    hide Take, TakeAll, Write, Next;
    TakeThree(w, Spawn(ApproveRead(d)), Run(|w.threads|, ans), Spawn(RejectRead(d)));
    Spawns(w, ApproveRead(d));
    var w1 := w.(threads := w.threads + [ApproveRead(d)]);
    ApproveReads(w.db, w.mail, d, ans);
    Runs(w1, |w.threads|, ans, w.db, ApproveInsert(d, w.db.drafts[d]));
    var w2 := w.(threads := w.threads + [ApproveInsert(d, w.db.drafts[d])]);
    assert w1.threads[|w.threads| := ApproveInsert(d, w.db.drafts[d])] == w2.threads;
    Spawns(w2, RejectRead(d));
    assert w2.threads + [RejectRead(d)] == w.threads + [ApproveInsert(d, w.db.drafts[d]), RejectRead(d)];
  }

  lemma RejectionRuns(w: World, r: nat, d: nat, ans: Answer)
    requires Approvable(w.db, d) && r < |w.threads| && w.threads[r] == RejectRead(d)
    ensures TakeAll(w, [Run(r, ans), Run(r, ans), Run(r, ans)])
         == World(SetDraft(RevokeActive(w.db, d), d, DraftRejected), w.mail, w.threads[r := Finished])
  {
    assert d < |w.db.drafts| && w.db.drafts[d].status == DraftAwaiting && RevokeActive(w.db, d).drafts == w.db.drafts;
    hide Take, TakeAll, Write, Next, SetDraft, RevokeActive, Approvable;
    var w1 := w.(threads := w.threads[r := RejectRows(d)]);
    var w2 := World(RevokeActive(w.db, d), w.mail, w.threads[r := RejectMark(d)]);
    TakeThree(w, Run(r, ans), Run(r, ans), Run(r, ans));
    assert Take(w, Run(r, ans)) == w1 by {
      RejectReads(w.db, w.mail, d, ans);
      Runs(w, r, ans, w.db, RejectRows(d));
    }
    assert Take(w1, Run(r, ans)) == w2 by {
      RejectRevokes(w.db, w.mail, d, ans);
      Runs(w1, r, ans, RevokeActive(w.db, d), RejectMark(d));
      SetAgain(w.threads, r, RejectRows(d), RejectMark(d));
    }
    RejectionMarks(w2, r, d, ans);
    SetAgain(w.threads, r, RejectMark(d), Finished);
  }

  lemma SetAgain(threads: seq<Thread>, r: nat, a: Thread, b: Thread)
    requires r < |threads|
    ensures threads[r := a][r := b] == threads[r := b]
  {}

  lemma RejectionMarks(w: World, r: nat, d: nat, ans: Answer)
    requires d < |w.db.drafts| && r < |w.threads| && w.threads[r] == RejectMark(d)
    ensures Take(w, Run(r, ans)) == World(SetDraft(w.db, d, DraftRejected), w.mail, w.threads[r := Finished])
  {
    hide Take, Write, Next, SetDraft;
    RejectMarks(w.db, w.mail, d, ans);
    Runs(w, r, ans, SetDraft(w.db, d, DraftRejected), Finished);
  }

  lemma ApprovalGoesOn(w: World, a: nat, d: nat, draft: Draft, ans: Answer)
    requires d < |w.db.drafts| && a < |w.threads| && w.threads[a] == ApproveInsert(d, draft)
    ensures TakeAll(w, [Run(a, ans), Run(a, ans)])
         == World(SetDraft(InsertApproval(w.db, d, draft), d, DraftApproved), w.mail,
                  w.threads[a := ApproveMove(draft.sequenceId)])
  {
    TakeTwo(w, Run(a, ans), Run(a, ans));
    hide Take, TakeAll, Write, Next;
    ApproveInserts(w.db, w.mail, d, draft, ans);
    Runs(w, a, ans, InsertApproval(w.db, d, draft), ApproveMark(d, draft.sequenceId));
    var w1 := World(InsertApproval(w.db, d, draft), w.mail, w.threads[a := ApproveMark(d, draft.sequenceId)]);
    ApproveMarks(w1.db, w.mail, d, draft.sequenceId, ans);
    Runs(w1, a, ans, SetDraft(w1.db, d, DraftApproved), ApproveMove(draft.sequenceId));
    assert w1.threads[a := ApproveMove(draft.sequenceId)] == w.threads[a := ApproveMove(draft.sequenceId)];
  }

  /** The world after the rejection, with the approval still under way. */
  function Rejected(w: World, d: nat): World
    requires Approvable(w.db, d)
  {
    World(SetDraft(RevokeActive(w.db, d), d, DraftRejected), w.mail, w.threads + [ApproveInsert(d, w.db.drafts[d]), Finished])
  }

  lemma SixStatements(w: World, d: nat, ans: Answer)
    requires Approvable(w.db, d)
    ensures TakeAll(w, Overtaking(|w.threads|, d, ans)[..6]) == Rejected(w, d)
  {
    hide Take, TakeAll, Write, Next;
    var a, steps := |w.threads|, Overtaking(|w.threads|, d, ans);
    var w1 := w.(threads := w.threads + [ApproveInsert(d, w.db.drafts[d]), RejectRead(d)]);
    ApprovalReads(w, d, ans);
    RejectionRuns(w1, a + 1, d, ans);
    assert w1.threads[a + 1 := Finished] == Rejected(w, d).threads;
    assert steps[..6] == [Spawn(ApproveRead(d)), Run(a, ans), Spawn(RejectRead(d))] + [Run(a + 1, ans), Run(a + 1, ans), Run(a + 1, ans)];
    TakeSum(w, [Spawn(ApproveRead(d)), Run(a, ans), Spawn(RejectRead(d))], [Run(a + 1, ans), Run(a + 1, ans), Run(a + 1, ans)]);
  }

  lemma LastTwoStatements(w: World, d: nat, ans: Answer)
    requires Approvable(w.db, d)
    ensures var after := TakeAll(Rejected(w, d), [Run(|w.threads|, ans), Run(|w.threads|, ans)]);
      d < |after.db.drafts| && after.db.drafts[d].status == DraftApproved && HasActive(after.db, d)
  {
    hide Take, TakeAll, Write, Next;
    var w2, draft := Rejected(w, d), w.db.drafts[d];
    ApprovalGoesOn(w2, |w.threads|, d, draft, ans);
    var after := TakeAll(w2, [Run(|w.threads|, ans), Run(|w.threads|, ans)]);
    assert after.db.approvals[|w2.db.approvals|] == Approval(d, draft.version, draft.contentHash, true);
  }

  /** From any world with an approvable draft: its rejection completes, and afterwards it is approved with an active approval. */
  lemma RejectionCanBeOvertaken(w: World, d: nat, ans: Answer)
    requires Approvable(w.db, d)
    ensures var rejected := TakeAll(w, Overtaking(|w.threads|, d, ans)[..6]);
      && d < |rejected.db.drafts| && rejected.db.drafts[d].status == DraftRejected
      && |rejected.threads| == |w.threads| + 2 && rejected.threads[|w.threads| + 1] == Finished
    ensures var after := TakeAll(w, Overtaking(|w.threads|, d, ans));
      d < |after.db.drafts| && after.db.drafts[d].status == DraftApproved && HasActive(after.db, d)
  {
    hide Take, TakeAll, Write, Next;
    var a, steps := |w.threads|, Overtaking(|w.threads|, d, ans);
    SixStatements(w, d, ans);
    LastTwoStatements(w, d, ans);
    assert steps == steps[..6] + [Run(a, ans), Run(a, ans)];
    TakeSum(w, steps[..6], [Run(a, ans), Run(a, ans)]);
  }
}
