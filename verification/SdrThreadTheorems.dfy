/** The safety theorems over every interleaving of statements. */
module SdrThreadTheorems {
  import opened Wrappers
  import opened OutboundProvider
  import opened SdrModel
  import opened SdrRows
  import opened SdrThreads
  import opened SdrThreadSafety

  ghost predicate Reachable(w: World)
  {
    exists tenantId, steps :: w == TakeAll(Start(tenantId), steps)
  }

  lemma ReachableIsSafe(w: World)
    requires Reachable(w)
    ensures Safe(w)
  {
    var tenantId, steps :| w == TakeAll(Start(tenantId), steps);
    EveryRunIsSafe(Start(tenantId), steps);
  }

  // --------------------------------------------------- at most one delivery

  /** Whatever interleaves, fails, crashes or is retried: the provider accepts at most one delivery per draft. */
  lemma AtMostOneDeliveryPerDraft(w: World, i: nat, j: nat)
    requires Reachable(w) && i < j < |w.mail.delivered|
    ensures w.mail.delivered[i].draftId != w.mail.delivered[j].draftId
  {
    ReachableIsSafe(w);
    assert CallOk(w.db, w.mail.delivered[i]) && CallOk(w.db, w.mail.delivered[j]);
  }

  /** Every SENT message row carries the provider id of its own draft's one delivery. */
  lemma SentRowCarriesItsDelivery(w: World, m: nat)
    requires Reachable(w) && m < |w.db.messages| && w.db.messages[m].status == MsgSent
    ensures exists i :: (0 <= i < |w.mail.delivered|
                         && w.mail.delivered[i].draftId == w.db.messages[m].draftId
                         && w.db.messages[m].providerMessageId == Some(DetMsg(w.mail.delivered[i].key)))
  {
    ReachableIsSafe(w);
    var row := w.db.messages[m];
    assert MessageRecorded(w.mail, row) && MessageOk(w.db.tenantId, w.db.drafts, row);
    var i :| 0 <= i < |w.mail.delivered| && w.mail.delivered[i].key == row.key;
    assert CallOk(w.db, w.mail.delivered[i]);
  }

  // ---------------------------------------------------------- what can go wrong

  /** Statements inside executeSend's try block. */
  predicate InTry(t: Thread)
  {
    || t.SendLiveCheck? || t.SendBlocked? || t.SendMark? || t.SendProvider? || t.SendRecord? || t.SendDraft?
    || t.SendActivate? || t.SendSync?
  }

  /** Where an error leaves a thread: in the catch block of the same message, or at its end. */
  predicate ThrownTo(t: Thread, next: Thread)
  {
    if InTry(t) then next == SendCatch(t.m) else next == Finished
  }

  /**
   The faults every theorem over worlds ranges over: a crash ends the thread where it stands, an
   error before a statement leaves the tables and the provider as they were, an error after it
   leaves them as the statement did.
  */
  lemma FaultsTakeEffect(w: World, tid: nat, ans: Answer)
    requires tid < |w.threads|
    ensures Take(w, Crash(tid)) == w.(threads := w.threads[tid := Finished])
    ensures var w1 := Take(w, FailBefore(tid));
      w1.db == w.db && w1.mail == w.mail && |w1.threads| == |w.threads| && ThrownTo(w.threads[tid], w1.threads[tid])
    ensures var w1, w2 := Take(w, FailAfter(tid, ans)), Take(w, Run(tid, ans));
      w1.db == w2.db && w1.mail == w2.mail && |w1.threads| == |w.threads| && ThrownTo(w.threads[tid], w1.threads[tid])
  {
    hide Write, Next, Call;
  }

  // ---------------------------------------------------- exact-content approval

  /** The one statement that calls the provider. */
  predicate CallsProvider(w: World, step: Step)
  {
    (step.Run? || step.FailAfter?) && step.tid < |w.threads| && w.threads[step.tid].SendProvider?
  }

  lemma OnlyProviderStepsCall(w: World, step: Step)
    ensures !CallsProvider(w, step) ==> Take(w, step).mail == w.mail
    ensures CallsProvider(w, step) ==>
      Take(w, step).mail == SendEmail(w.mail, InputOf(w.db.tenantId, w.threads[step.tid].c)).0
  {}

  /**
   A step makes at most one provider call, and then some approval row, already there before
   the step, names the draft, its version and the hash of the very subject and body sent.
  */
  lemma CallHasExactApproval(w: World, step: Step)
    requires Reachable(w)
    ensures var calls, calls' := w.mail.sendCalls, Take(w, step).mail.sendCalls;
      calls' == calls || (CallsProvider(w, step) && |calls'| == |calls| + 1 && calls <= calls'
        && exists a :: 0 <= a < |w.db.approvals| && Covers(w.db, a, calls'[|calls|]))
  {
    ReachableIsSafe(w);
    OnlyProviderStepsCall(w, step);
    if CallsProvider(w, step) {
      assert ThreadOk(w.db, w.mail, w.threads[step.tid]);
      InputOk(w.db, w.threads[step.tid].c);
      var input := InputOf(w.db.tenantId, w.threads[step.tid].c);
      var calls' := Take(w, step).mail.sendCalls;
      assert calls' == w.mail.sendCalls || calls' == w.mail.sendCalls + [input];
      assert calls' != w.mail.sendCalls ==> calls'[|w.mail.sendCalls|] == input;
    }
  }

  /** The branches on a hash or version mismatch, in the send gate and in approveDraft, are never taken. */
  lemma MismatchNeverSeen(w: World, tid: nat)
    requires Reachable(w) && tid < |w.threads|
    ensures var t := w.threads[tid];
      && (t.SendReadApproval? && FindActive(w.db.approvals, t.d).Some? ==>
            var approval := w.db.approvals[FindActive(w.db.approvals, t.d).value];
            approval.contentHash == t.draft.contentHash && approval.draftVersion == t.draft.version
              && LiveHash(t.draft) == approval.contentHash)
      && (t.ApproveRead? && t.d < |w.db.drafts| ==> LiveHash(w.db.drafts[t.d]) == w.db.drafts[t.d].contentHash)
  {
    ReachableIsSafe(w);
    var t := w.threads[tid];
    assert ThreadOk(w.db, w.mail, t);
    if t.SendReadApproval? {
      assert DraftOk(w.db, w.db.drafts[t.d]);
      var a := FindActive(w.db.approvals, t.d);
      if a.Some? { assert ApprovalOk(w.db.drafts, w.db.approvals[a.value]); }
    }
    if t.ApproveRead? && t.d < |w.db.drafts| { assert DraftOk(w.db, w.db.drafts[t.d]); }
  }

  // -------------------------------------------------------------- stop-safety

  ghost predicate StoppedIn(db: Db, q: nat)
  {
    q < |db.sequences| && Stopped(db.sequences[q].status)
  }

  lemma WriteKeepsStopped(db: Db, t: Thread, ans: Answer, q: nat)
    requires StoppedIn(db, q)
    ensures StoppedIn(Write(db, t, ans), q)
  {
    hide WriteSend, WriteDraft, WriteOther;
    if IsSend(t) {
      SendKeepsStopped(db, t, ans, q);
    } else if IsDrafting(t) {
      DraftKeepsStopped(db, t, q);
    } else {
      OtherKeepsStopped(db, t, q);
    }
  }

  lemma SendKeepsStopped(db: Db, t: Thread, ans: Answer, q: nat)
    requires StoppedIn(db, q)
    ensures StoppedIn(WriteSend(db, t, ans), q)
  {}

  lemma DraftKeepsStopped(db: Db, t: Thread, q: nat)
    requires StoppedIn(db, q)
    ensures StoppedIn(WriteDraft(db, t), q)
  {}

  lemma OtherKeepsStopped(db: Db, t: Thread, q: nat)
    requires StoppedIn(db, q)
    ensures StoppedIn(WriteOther(db, t), q)
  {}

  lemma TakeKeepsStopped(w: World, step: Step, q: nat)
    requires StoppedIn(w.db, q)
    ensures StoppedIn(Take(w, step).db, q)
  {
    if (step.Run? || step.FailAfter?) && step.tid < |w.threads| {
      WriteKeepsStopped(w.db, w.threads[step.tid], step.ans, q);
    }
  }

  /** Once a sequence is in the stop set, no step of any thread takes it out, from any state whatever. */
  lemma {:induction false} StopSetIsAbsorbing(w: World, steps: seq<Step>, q: nat)
    requires StoppedIn(w.db, q)
    ensures StoppedIn(TakeAll(w, steps).db, q)
  {
    if steps == [] {
    } else {
      StopSetIsAbsorbing(w, steps[..|steps| - 1], q);
      TakeKeepsStopped(TakeAll(w, steps[..|steps| - 1]), steps[|steps| - 1], q);
    }
  }

  /** A send of sequence q that has passed its pre-provider check and has not called yet. */
  predicate InFlight(t: Thread, q: nat)
  {
    (t.SendMark? || t.SendProvider?) && t.c.draft.sequenceId == q
  }

  function CountInFlight(threads: seq<Thread>, q: nat): nat
  {
    if threads == [] then 0
    else CountInFlight(threads[..|threads| - 1], q) + (if InFlight(threads[|threads| - 1], q) then 1 else 0)
  }

  /** Provider calls made for drafts of sequence q. */
  ghost function CountCalls(drafts: seq<Draft>, calls: seq<SendInput>, q: nat): nat
  {
    if calls == [] then 0
    else
      var last := calls[|calls| - 1];
      CountCalls(drafts, calls[..|calls| - 1], q)
        + (if last.draftId < |drafts| && drafts[last.draftId].sequenceId == q then 1 else 0)
  }

  lemma {:induction false} CountUpdate(threads: seq<Thread>, tid: nat, t: Thread, q: nat)
    requires tid < |threads|
    ensures CountInFlight(threads[tid := t], q) + (if InFlight(threads[tid], q) then 1 else 0)
      == CountInFlight(threads, q) + (if InFlight(t, q) then 1 else 0)
  {
    var n := |threads| - 1;
    if tid == n {
      assert threads[tid := t][..n] == threads[..n];
    } else {
      assert threads[tid := t][..n] == threads[..n][tid := t];
      CountUpdate(threads[..n], tid, t, q);
    }
  }

  lemma {:induction false} CountCallsStable(a: seq<Draft>, b: seq<Draft>, db: Db, calls: seq<SendInput>, q: nat)
    requires Grows(a, b) && db.drafts == a && forall i | 0 <= i < |calls| :: CallOk(db, calls[i])
    ensures CountCalls(b, calls, q) == CountCalls(a, calls, q)
  {
    if calls == [] {
    } else {
      var n := |calls| - 1;
      assert CallOk(db, calls[n]);
      forall i | 0 <= i < n ensures CallOk(db, calls[..n][i]) { assert CallOk(db, calls[i]); }
      CountCallsStable(a, b, db, calls[..n], q);
    }
  }

  ghost function Budget(w: World, q: nat): nat
  {
    CountCalls(w.db.drafts, w.mail.sendCalls, q) + CountInFlight(w.threads, q)
  }

  /** When the sequence is stopped, a thread's statement lets no new send past the check. */
  lemma NoneJoins(db: Db, mail: Mailer, t: Thread, ans: Answer, q: nat)
    requires StoppedIn(db, q)
    ensures InFlight(Next(db, mail, t, ans), q) ==> t.SendMark? && InFlight(t, q)
    ensures !InFlight(OnError(t), q)
  {
    hide NextSend, NextDraft, NextOther, StoppedIn, OnError;
    if IsSend(t) {
      NoSendJoins(db, mail, t, ans, q);
    }
    OthersAreNoSends(db, t, ans);
    ErrorsNeverJoin(t, q);
  }

  lemma ErrorsNeverJoin(t: Thread, q: nat)
    ensures !InFlight(OnError(t), q)
  {}

  lemma NoSendJoins(db: Db, mail: Mailer, t: Thread, ans: Answer, q: nat)
    requires StoppedIn(db, q) && IsSend(t)
    ensures InFlight(NextSend(db, mail, t, ans), q) ==> t.SendMark? && InFlight(t, q)
  {}

  lemma OthersAreNoSends(db: Db, t: Thread, ans: Answer)
    ensures !IsSend(NextDraft(db, t, ans)) && !IsSend(NextOther(db, t, ans))
  {
    DraftsAreNoSends(db, t, ans);
    DecisionsAreNoSends(db, t, ans);
  }

  lemma DraftsAreNoSends(db: Db, t: Thread, ans: Answer)
    ensures !IsSend(NextDraft(db, t, ans))
  {}

  lemma DecisionsAreNoSends(db: Db, t: Thread, ans: Answer)
    ensures !IsSend(NextOther(db, t, ans))
  {}

  lemma IssueBudget(w: World, tid: nat, ans: Answer, next: Thread, q: nat)
    requires Safe(w) && tid < |w.threads| && StoppedIn(w.db, q)
    requires InFlight(next, q) ==> w.threads[tid].SendMark? && InFlight(w.threads[tid], q)
    ensures Budget(Issue(w, tid, ans, next), q) <= Budget(w, q)
  {
    var t := w.threads[tid];
    var db1, mail1 := Write(w.db, t, ans), Call(w.db.tenantId, w.mail, t);
    WriteGrows(w.db, t, ans);
    CountUpdate(w.threads, tid, next, q);
    if t.SendProvider? {
      assert ThreadOk(w.db, w.mail, t) && db1 == w.db;
      hide Safe, StoppedIn, Write;
      OneCallCounts(w.db, w.mail, t.c, q);
    } else {
      CountCallsStable(w.db.drafts, db1.drafts, w.db, w.mail.sendCalls, q);
      hide Safe, StoppedIn, Write;
    }
  }

  /** A provider call counts once for its own sequence at most. */
  lemma OneCallCounts(db: Db, mail: Mailer, c: SendCtx, q: nat)
    requires CtxOk(db, c)
    ensures CountCalls(db.drafts, SendEmail(mail, InputOf(db.tenantId, c)).0.sendCalls, q)
      <= CountCalls(db.drafts, mail.sendCalls, q) + (if c.draft.sequenceId == q then 1 else 0)
  {
    var calls := SendEmail(mail, InputOf(db.tenantId, c)).0.sendCalls;
    if calls != mail.sendCalls {
      assert calls[..|mail.sendCalls|] == mail.sendCalls;
    }
  }

  lemma TakeBudget(w: World, step: Step, q: nat)
    requires Safe(w) && StoppedIn(w.db, q)
    ensures Budget(Take(w, step), q) <= Budget(w, q)
  {
    hide Write, Next, Call, Safe, StoppedIn, OnError;
    match step
    case Spawn(t) => assert Take(w, step).threads[..|w.threads|] == w.threads || !Initial(t);
    case Run(tid, ans) =>
      if tid < |w.threads| {
        NoneJoins(w.db, w.mail, w.threads[tid], ans, q);
        IssueBudget(w, tid, ans, Next(w.db, w.mail, w.threads[tid], ans), q);
      }
    case FailBefore(tid) =>
      if tid < |w.threads| {
        NoneJoins(w.db, w.mail, w.threads[tid], Answer(true, true, true, true, true, None), q);
        CountUpdate(w.threads, tid, OnError(w.threads[tid]), q);
      }
    case FailAfter(tid, ans) =>
      if tid < |w.threads| {
        NoneJoins(w.db, w.mail, w.threads[tid], ans, q);
        IssueBudget(w, tid, ans, OnError(w.threads[tid]), q);
      }
    case Crash(tid) => if tid < |w.threads| { CountUpdate(w.threads, tid, Finished, q); }
    case SetPaused(p) =>
  }

  /**
   After the stop, every provider call for the sequence is spent by a send that had passed its
   check before: calls made plus sends past the check never grow. A send that checks later, or a
   draft adapted and approved after the stop, never reaches the provider.
  */
  lemma {:induction false} StopBoundsProviderCalls(w: World, steps: seq<Step>, q: nat)
    requires Safe(w) && StoppedIn(w.db, q)
    ensures Budget(TakeAll(w, steps), q) <= Budget(w, q)
  {
    if steps == [] {
    } else {
      var before := TakeAll(w, steps[..|steps| - 1]);
      StopBoundsProviderCalls(w, steps[..|steps| - 1], q);
      EveryRunIsSafe(w, steps[..|steps| - 1]);
      StopSetIsAbsorbing(w, steps[..|steps| - 1], q);
      TakeBudget(before, steps[|steps| - 1], q);
    }
  }

  /** With nothing in flight at the stop, the calls for the sequence are over for good. */
  lemma StoppedSequenceIsSilent(w: World, more: seq<Step>, q: nat)
    requires Reachable(w) && StoppedIn(w.db, q) && CountInFlight(w.threads, q) == 0
    ensures var w' := TakeAll(w, more);
      CountCalls(w'.db.drafts, w'.mail.sendCalls, q) <= CountCalls(w.db.drafts, w.mail.sendCalls, q)
  {
    ReachableIsSafe(w);
    StopBoundsProviderCalls(w, more, q);
  }

  lemma {:induction false} LateCheckNeverJoins(w: World, steps: seq<Step>, tid: nat, q: nat)
    requires StoppedIn(w.db, q) && (tid < |w.threads| ==> !InFlight(w.threads[tid], q))
    ensures var w' := TakeAll(w, steps); tid < |w'.threads| ==> !InFlight(w'.threads[tid], q)
  {
    if steps == [] {
    } else {
      var before, step := TakeAll(w, steps[..|steps| - 1]), steps[|steps| - 1];
      LateCheckNeverJoins(w, steps[..|steps| - 1], tid, q);
      StopSetIsAbsorbing(w, steps[..|steps| - 1], q);
      if (step.Run? || step.FailAfter?) && step.tid == tid && tid < |before.threads| {
        NoneJoins(before.db, before.mail, before.threads[tid], step.ans, q);
      }
    }
  }

  /** A send of a stopped sequence that has not passed its check never calls the provider: no later step of it does, for that sequence. */
  lemma LateCheckNeverCalls(w: World, steps: seq<Step>, step: Step, tid: nat, q: nat)
    requires StoppedIn(w.db, q) && (tid < |w.threads| ==> !InFlight(w.threads[tid], q))
    requires (step.Run? || step.FailAfter?) && step.tid == tid
    ensures var w' := TakeAll(w, steps);
      var calls, calls' := w'.mail.sendCalls, Take(w', step).mail.sendCalls;
      calls' == calls || (tid < |w'.threads| && w'.threads[tid].SendProvider? && w'.threads[tid].c.draft.sequenceId != q
                          && calls' == calls + [InputOf(w'.db.tenantId, w'.threads[tid].c)])
  {
    LateCheckNeverJoins(w, steps, tid, q);
    var w' := TakeAll(w, steps);
    OnlyProviderStepsCall(w', step);
    hide TakeAll, Take;
  }
}
