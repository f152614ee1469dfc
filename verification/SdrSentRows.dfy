/**
 How long a SENT message row stays SENT. The catch block of executeSend, the stop check and the
 SENDING mark write a row's status without looking at it, so the answer depends on who is
 still at work on the row.
*/
module SdrSentRows {
  import opened Wrappers
  import opened OutboundProvider
  import opened SdrModel
  import opened SdrRows
  import opened SdrThreads
  import opened SdrThreadSafety
  import opened SdrThreadTheorems

  predicate IsSent(db: Db, m: nat)
  {
    m < |db.messages| && db.messages[m].status == MsgSent
  }

  /** Statements that write another status over row m. */
  predicate Unsends(t: Thread, m: nat)
  {
    (t.SendBlocked? && t.m == m) || (t.SendMark? && t.m == m) || (t.SendCatch? && t.m == m)
  }

  /** A send inside its try block for row m. */
  predicate Holds(t: Thread, m: nat)
  {
    || Unsends(t, m)
    || (t.SendLiveCheck? && t.m == m) || (t.SendProvider? && t.m == m) || (t.SendRecord? && t.m == m)
    || (t.SendDraft? && t.m == m) || (t.SendActivate? && t.m == m) || (t.SendSync? && t.m == m)
  }

  predicate Executes(w: World, step: Step)
  {
    (step.Run? || step.FailAfter?) && step.tid < |w.threads|
  }

  lemma WriteUnsendsExactlyWhen(db: Db, t: Thread, ans: Answer, m: nat)
    requires IsSent(db, m)
    ensures !IsSent(Write(db, t, ans), m) <==> Unsends(t, m)
  {
    hide Write, MessagesAfter;
    MessagesWritten(db, t, ans);
    if IsSend(t) {
      SendUnsendsExactlyWhen(db, t, ans, m);
    } else {
      assert MessagesAfter(db, t, ans) == db.messages by { OthersWriteNoMessage(db, t, ans); }
    }
  }

  lemma OthersWriteNoMessage(db: Db, t: Thread, ans: Answer)
    requires !IsSend(t)
    ensures MessagesAfter(db, t, ans) == db.messages
  {}

  lemma SendUnsendsExactlyWhen(db: Db, t: Thread, ans: Answer, m: nat)
    requires IsSent(db, m) && IsSend(t)
    ensures !IsSent(db.(messages := MessagesAfter(db, t, ans)), m) <==> Unsends(t, m)
  {
    hide FindMessage, KeyOf;
  }

  /** A step takes a row out of SENT exactly when a stop check, SENDING mark or catch block for that row takes effect. */
  lemma StopsBeingSentExactlyWhen(w: World, step: Step, m: nat)
    requires IsSent(w.db, m)
    ensures !IsSent(Take(w, step).db, m) <==> Executes(w, step) && Unsends(w.threads[step.tid], m)
  {
    if Executes(w, step) { WriteUnsendsExactlyWhen(w.db, w.threads[step.tid], step.ans, m); }
  }

  // ------------------------------------------------------- whatever may fail

  ghost predicate Unheld(w: World, m: nat)
  {
    IsSent(w.db, m) && forall tid | 0 <= tid < |w.threads| :: !Holds(w.threads[tid], m)
  }

  /** No send takes hold of a row that is SENT. */
  lemma NoneTakesHold(db: Db, mail: Mailer, t: Thread, ans: Answer, m: nat)
    requires IsSent(db, m) && !Holds(t, m)
    ensures !Holds(Next(db, mail, t, ans), m) && !Holds(OnError(t), m)
  {
    OthersAreNoSends(db, t, ans);
    if IsSend(t) { NoSendTakesHold(db, mail, t, ans, m); }
    ErrorKeepsRow(t, m);
    hide NextSend, NextDraft, NextOther, OnError;
  }

  lemma ErrorKeepsRow(t: Thread, m: nat)
    requires !Holds(t, m)
    ensures !Holds(OnError(t), m)
  {}

  lemma NoSendTakesHold(db: Db, mail: Mailer, t: Thread, ans: Answer, m: nat)
    requires IsSent(db, m) && !Holds(t, m) && IsSend(t)
    ensures !Holds(NextSend(db, mail, t, ans), m)
  {}

  /** Only executeSend's threads are sends. */
  lemma UnheldStays(w: World, step: Step, m: nat)
    requires Unheld(w, m)
    ensures Unheld(Take(w, step), m)
  {
    StopsBeingSentExactlyWhen(w, step, m);
    if (step.Run? || step.FailBefore? || step.FailAfter?) && step.tid < |w.threads| {
      var ans := if step.FailBefore? then Answer(true, true, true, true, true, None) else step.ans;
      NoneTakesHold(w.db, w.mail, w.threads[step.tid], ans, m);
    }
    hide Write, Next, OnError, Call;
  }

  lemma {:induction false} UnheldStaysInRuns(w: World, steps: seq<Step>, m: nat)
    requires Unheld(w, m)
    ensures Unheld(TakeAll(w, steps), m)
  {
    if steps == [] {
    } else {
      UnheldStaysInRuns(w, steps[..|steps| - 1], m);
      UnheldStays(TakeAll(w, steps[..|steps| - 1]), steps[|steps| - 1], m);
    }
  }

  /** Whatever interleaves, fails or crashes from here on, row m stays SENT. */
  ghost predicate StaysSent(w: World, m: nat)
  {
    forall steps :: IsSent(TakeAll(w, steps).db, m)
  }

  lemma CatchUnsends(w: World, tid: nat, m: nat, ans: Answer)
    requires IsSent(w.db, m) && tid < |w.threads| && w.threads[tid] == SendCatch(m)
    ensures !IsSent(Take(w, Run(tid, ans)).db, m) && !StaysSent(w, m)
  {
    hide Take;
    TakeOne(w, Run(tid, ans));
    StopsBeingSentExactlyWhen(w, Run(tid, ans), m);
  }

  /** A statement of a holder that fails leads to the catch block, which writes FAILED. */
  lemma ErrorUnsends(w: World, tid: nat, m: nat, ans: Answer)
    requires IsSent(w.db, m) && tid < |w.threads| && Holds(w.threads[tid], m)
    ensures !StaysSent(w, m)
  {
    if w.threads[tid].SendCatch? {
      CatchUnsends(w, tid, m, ans);
    } else {
      var w1 := Take(w, FailBefore(tid));
      assert w1.threads[tid] == SendCatch(m);
      hide Take;
      TakeTwo(w, FailBefore(tid), Run(tid, ans));
      CatchUnsends(w1, tid, m, ans);
      TakeOne(w1, Run(tid, ans));
    }
  }

  /** The error after a delivered message: the CRM mark is written, its failure is caught, and the SENT row becomes FAILED. */
  lemma LateErrorFails(w: World, tid: nat, m: nat, ans: Answer)
    requires IsSent(w.db, m) && tid < |w.threads| && w.threads[tid] == SendSync(m)
    ensures var after := TakeAll(w, [FailAfter(tid, ans), Run(tid, ans)]).db;
      m < |after.messages| && after.messages[m].status == MsgFailed
  {
    var w1 := Take(w, FailAfter(tid, ans));
    hide Call, TakeAll, FindMessage;
    assert w1.threads[tid] == SendCatch(m) && m < |w1.db.messages|;
    hide Write, IsSent, Take;
    TakeTwo(w, FailAfter(tid, ans), Run(tid, ans));
    CatchFails(w1, tid, m, ans);
  }

  lemma CatchFails(w: World, tid: nat, m: nat, ans: Answer)
    requires tid < |w.threads| && w.threads[tid] == SendCatch(m) && m < |w.db.messages|
    ensures var after := Take(w, Run(tid, ans)).db;
      m < |after.messages| && after.messages[m].status == MsgFailed
  {
    hide Next;
  }

  /** A SENT row is sure to stay SENT exactly when no send is still inside its try block for it. */
  lemma StaysSentExactlyWhen(w: World, m: nat)
    requires IsSent(w.db, m)
    ensures StaysSent(w, m) <==> forall tid | 0 <= tid < |w.threads| :: !Holds(w.threads[tid], m)
  {
    if tid :| 0 <= tid < |w.threads| && Holds(w.threads[tid], m) {
      ErrorUnsends(w, tid, m, Answer(true, true, true, true, true, None));
    } else {
      forall steps ensures IsSent(TakeAll(w, steps).db, m) { UnheldStaysInRuns(w, steps, m); }
    }
  }

  // ---------------------------------------------------- as long as nothing fails

  predicate NoFault(step: Step)
  {
    !step.FailBefore? && !step.FailAfter?
  }

  ghost predicate NoFaults(steps: seq<Step>)
  {
    forall i | 0 <= i < |steps| :: NoFault(steps[i])
  }

  /** A send that is bound to write over row m, unless its next check fails it first. */
  predicate Overwrites(t: Thread, m: nat)
  {
    Unsends(t, m) || (t.SendLiveCheck? && t.m == m)
  }

  ghost predicate NotOverwritten(w: World, m: nat)
  {
    Safe(w) && IsSent(w.db, m) && forall tid | 0 <= tid < |w.threads| :: !Overwrites(w.threads[tid], m)
  }

  /** The provider answers a send of a SENT row: its key is known. */
  lemma KnownKeyAnswers(w: World, tid: nat)
    requires Safe(w) && tid < |w.threads| && w.threads[tid].SendProvider? && IsSent(w.db, w.threads[tid].m)
    ensures SendEmail(w.mail, InputOf(w.db.tenantId, w.threads[tid].c)).1.Some?
  {
    var c, m := w.threads[tid].c, w.threads[tid].m;
    assert ThreadOk(w.db, w.mail, w.threads[tid]);
    assert w.threads[tid] == SendProvider(c, m);
    hide DraftOk, ApprovalOk, CallOk, OncePerKey, CtxOk;
    SentRowKeyKnown(w.db, w.mail, c, m);
  }

  lemma SentRowKeyKnown(db: Db, mail: Mailer, c: SendCtx, m: nat)
    requires RowsOk(db) && MailOk(db, mail) && ThreadOk(db, mail, SendProvider(c, m)) && IsSent(db, m)
    ensures SendEmail(mail, InputOf(db.tenantId, c)).1.Some?
  {
    hide DraftOk, ApprovalOk, CallOk, OncePerKey;
    assert CtxOk(db, c) && RowOf(db, m, c.d);
    assert MessageOk(db.tenantId, db.drafts, db.messages[m]) && MessageRecorded(mail, db.messages[m]);
    hide RowsOk, MailOk, ThreadOk;
    assert InputOf(db.tenantId, c).key == db.messages[m].key;
  }

  lemma NextOverwrites(db: Db, mail: Mailer, t: Thread, ans: Answer, m: nat)
    requires IsSent(db, m) && !Overwrites(t, m)
    requires t.SendProvider? && t.m == m ==> SendEmail(mail, InputOf(db.tenantId, t.c)).1.Some?
    ensures !Overwrites(Next(db, mail, t, ans), m)
  {
    OthersAreNoSends(db, t, ans);
    if IsSend(t) { NextSendOverwrites(db, mail, t, ans, m); }
    hide NextSend, NextDraft, NextOther;
  }

  lemma NextSendOverwrites(db: Db, mail: Mailer, t: Thread, ans: Answer, m: nat)
    requires IsSent(db, m) && !Overwrites(t, m) && IsSend(t)
    requires t.SendProvider? && t.m == m ==> SendEmail(mail, InputOf(db.tenantId, t.c)).1.Some?
    ensures !Overwrites(NextSend(db, mail, t, ans), m)
  {
    hide SendEmail, InputOf, KeyOf;
    if t.SendFindMessage? || t.SendCreateMessage? {
      LookupOverwrites(db, mail, t, ans, m);
    } else {
      hide FindMessage, FindActive, IsSent;
    }
  }

  /** The lookup passes a SENT row by. */
  lemma LookupOverwrites(db: Db, mail: Mailer, t: Thread, ans: Answer, m: nat)
    requires IsSent(db, m) && (t.SendFindMessage? || t.SendCreateMessage?)
    ensures !Overwrites(NextSend(db, mail, t, ans), m)
  {
    hide KeyOf;
  }

  lemma NotOverwrittenStays(w: World, step: Step, m: nat)
    requires NotOverwritten(w, m) && NoFault(step)
    ensures NotOverwritten(Take(w, step), m)
  {
    hide Write, Next, Call, Safe, SendEmail, InputOf;
    TakeKeepsSafe(w, step);
    StopsBeingSentExactlyWhen(w, step, m);
    if step.Run? && step.tid < |w.threads| {
      var t := w.threads[step.tid];
      if t.SendProvider? && t.m == m { KnownKeyAnswers(w, step.tid); }
      NextOverwrites(w.db, w.mail, t, step.ans, m);
    }
  }

  lemma {:induction false} NotOverwrittenInRuns(w: World, steps: seq<Step>, m: nat)
    requires NotOverwritten(w, m) && NoFaults(steps)
    ensures NotOverwritten(TakeAll(w, steps), m)
  {
    if steps == [] {
    } else {
      NotOverwrittenInRuns(w, steps[..|steps| - 1], m);
      NotOverwrittenStays(TakeAll(w, steps[..|steps| - 1]), steps[|steps| - 1], m);
    }
  }

  ghost predicate StaysSentUnlessFaults(w: World, m: nat)
  {
    forall steps | NoFaults(steps) :: IsSent(TakeAll(w, steps).db, m)
  }

  lemma OverwriterUnsends(w: World, tid: nat, m: nat)
    requires IsSent(w.db, m) && tid < |w.threads| && Overwrites(w.threads[tid], m)
    ensures !StaysSentUnlessFaults(w, m)
  {
    var run := Run(tid, Answer(true, true, true, true, true, None));
    if Unsends(w.threads[tid], m) {
      TakeOne(w, run);
      StopsBeingSentExactlyWhen(w, run, m);
      assert NoFaults([run]);
    } else {
      var w1 := Take(w, run);
      assert w1.db == w.db && Unsends(w1.threads[tid], m);
      hide Take;
      TakeTwo(w, run, run);
      StopsBeingSentExactlyWhen(w1, run, m);
      assert NoFaults([run, run]);
    }
  }

  /**
   If no statement fails, crashes and interleavings allowed, a SENT row of a reachable world stays
   SENT exactly when no concurrent send stands between its message lookup and its SENDING mark,
   or at a status write of the error path.
  */
  lemma StaysSentUnlessFaultsExactlyWhen(w: World, m: nat)
    requires Reachable(w) && IsSent(w.db, m)
    ensures StaysSentUnlessFaults(w, m) <==> forall tid | 0 <= tid < |w.threads| :: !Overwrites(w.threads[tid], m)
  {
    if tid :| 0 <= tid < |w.threads| && Overwrites(w.threads[tid], m) {
      OverwriterUnsends(w, tid, m);
    } else {
      ReachableIsSafe(w);
      forall steps | NoFaults(steps) ensures IsSent(TakeAll(w, steps).db, m) { NotOverwrittenInRuns(w, steps, m); }
    }
  }
}
