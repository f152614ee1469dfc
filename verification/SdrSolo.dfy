/** One service call's thread left alone: its statements one after another, and the states it can finish in. */
module SdrSolo {
  import opened Wrappers
  import opened OutboundProvider
  import opened SdrModel
  import opened SdrThreads

  /** The tables, the provider and one thread, nothing else running. */
  datatype Solo = Solo(db: Db, mail: Mailer, t: Thread)

  function StepAlone(s: Solo, ans: Answer): Solo
  {
    Solo(Write(s.db, s.t, ans), Call(s.db.tenantId, s.mail, s.t), Next(s.db, s.mail, s.t, ans))
  }

  function Alone(s: Solo, answers: seq<Answer>): Solo
  {
    if answers == [] then s else StepAlone(Alone(s, answers[..|answers| - 1]), answers[|answers| - 1])
  }

  lemma {:induction false} AloneThen(s: Solo, first: seq<Answer>, rest: seq<Answer>)
    ensures Alone(s, first + rest) == Alone(Alone(s, first), rest)
  {
    if rest == [] {
      assert first + rest == first;
    } else {
      var n := |rest| - 1;
      assert (first + rest)[..|first + rest| - 1] == first + rest[..n];
      AloneThen(s, first, rest[..n]);
    }
  }

  lemma AloneStep(s: Solo, ans: Answer)
    ensures Alone(s, [ans]) == StepAlone(s, ans)
  {
    assert [ans][..0] == [];
    assert Alone(s, [ans][..0]) == s;
  }

  /** The lone thread can finish with e. */
  ghost predicate Ends(s: Solo, e: Solo)
  {
    e.t == Finished && exists answers :: Alone(s, answers) == e
  }

  ghost predicate SameEnds(a: Solo, b: Solo)
  {
    forall e :: Ends(a, e) <==> Ends(b, e)
  }

  /** Statements that ask something outside the tables and the provider. */
  predicate Asks(t: Thread)
  {
    || t.SendReadCandidate? || t.SendSync? || t.SequenceCandidate? || t.SequenceResearch? || t.DraftResearch?
    || t.DraftPropose? || t.DraftGenerate? || t.ConfirmProvider?
  }

  lemma FinishedRests(s: Solo, ans: Answer)
    requires s.t == Finished
    ensures StepAlone(s, ans) == s
  {}

  lemma {:induction false} FinishedStays(s: Solo, answers: seq<Answer>)
    requires s.t == Finished
    ensures Alone(s, answers) == s
  {
    if answers == [] {
    } else {
      FinishedStays(s, answers[..|answers| - 1]);
      FinishedRests(s, answers[|answers| - 1]);
    }
  }

  lemma FinishedEnds(s: Solo, e: Solo)
    requires s.t == Finished
    ensures Ends(s, e) <==> e == s
  {
    assert Alone(s, []) == s;
    if Ends(s, e) {
      var answers :| Alone(s, answers) == e;
      FinishedStays(s, answers);
    }
  }

  /** The ends of a thread are those it has after one more statement, whatever that is answered. */
  lemma EndsAfterStatement(s: Solo, e: Solo)
    requires s.t != Finished
    ensures Ends(s, e) <==> exists ans :: Ends(StepAlone(s, ans), e)
  {
    hide StepAlone;
    if Ends(s, e) {
      var answers :| Alone(s, answers) == e;
      assert answers != [];
      assert answers == [answers[0]] + answers[1..];
      AloneThen(s, [answers[0]], answers[1..]);
      AloneStep(s, answers[0]);
      assert Ends(StepAlone(s, answers[0]), e);
    }
    if ans :| Ends(StepAlone(s, ans), e) {
      var rest :| Alone(StepAlone(s, ans), rest) == e;
      AloneThen(s, [ans], rest);
      AloneStep(s, ans);
    }
  }

  /** A statement that asks nothing has one outcome. */
  lemma AnswerIsMoot(s: Solo, x: Answer, y: Answer)
    requires !Asks(s.t)
    ensures StepAlone(s, x) == StepAlone(s, y)
  {
    WriteIgnores(s.db, s.t, x, y);
    NextIgnores(s.db, s.mail, s.t, x, y);
  }

  lemma WriteIgnores(db: Db, t: Thread, x: Answer, y: Answer)
    requires !Asks(t)
    ensures Write(db, t, x) == Write(db, t, y)
  {}

  lemma NextIgnores(db: Db, mail: Mailer, t: Thread, x: Answer, y: Answer)
    requires !Asks(t)
    ensures Next(db, mail, t, x) == Next(db, mail, t, y)
  {}

  const YES := Answer(true, true, true, true, true, None)

  lemma Only(a: Solo, b: Solo)
    requires !Asks(a.t) && a.t != Finished && StepAlone(a, YES) == b
    ensures SameEnds(a, b)
  {
    hide StepAlone;
    forall ans ensures StepAlone(a, ans) == b { AnswerIsMoot(a, ans, YES); }
    forall e ensures Ends(a, e) <==> Ends(b, e) {
      EndsAfterStatement(a, e);
      hide Ends;
      assert StepAlone(a, YES) == b;
    }
  }

  /** A statement with two outcomes, each reached by some answer. */
  lemma Splits(a: Solo, yes: Solo, x: Answer, no: Solo, y: Answer, e: Solo)
    requires a.t != Finished && StepAlone(a, x) == yes && StepAlone(a, y) == no
    requires forall ans :: StepAlone(a, ans) == yes || StepAlone(a, ans) == no
    ensures Ends(a, e) <==> Ends(yes, e) || Ends(no, e)
  {
    EndsAfterStatement(a, e);
    hide Ends, StepAlone;
    if Ends(yes, e) { assert Ends(StepAlone(a, x), e); }
    if Ends(no, e) { assert Ends(StepAlone(a, y), e); }
  }

  lemma SameThen(a: Solo, b: Solo, c: Solo)
    requires SameEnds(a, b) && SameEnds(b, c)
    ensures SameEnds(a, c)
  {}

  lemma Hop(a: Solo, b: Solo, c: Solo)
    requires SameEnds(a, b) && !Asks(b.t) && b.t != Finished && StepAlone(b, YES) == c
    ensures SameEnds(a, c)
  {
    hide StepAlone, Ends;
    Only(b, c);
    SameThen(a, b, c);
  }

  lemma SameRefl(a: Solo)
    ensures SameEnds(a, a)
  {}

  /** The thread's statements, and nobody else's. */
  function Runs(tid: nat, answers: seq<Answer>): seq<Step>
  {
    if answers == [] then [] else Runs(tid, answers[..|answers| - 1]) + [Run(tid, answers[|answers| - 1])]
  }

  lemma OneMoreAlone(w: World, tid: nat, ans: Answer)
    requires tid < |w.threads|
    ensures var w' := Take(w, Run(tid, ans));
      |w'.threads| == |w.threads|
      && Solo(w'.db, w'.mail, w'.threads[tid]) == StepAlone(Solo(w.db, w.mail, w.threads[tid]), ans)
  {
    hide Write, Next, Call;
  }

  /** Run by itself inside a world, a thread does there what it does alone. */
  lemma {:induction false} AloneInWorld(w: World, tid: nat, answers: seq<Answer>)
    requires tid < |w.threads|
    ensures var w' := TakeAll(w, Runs(tid, answers));
      |w'.threads| == |w.threads|
      && Solo(w'.db, w'.mail, w'.threads[tid]) == Alone(Solo(w.db, w.mail, w.threads[tid]), answers)
  {
    hide Take, StepAlone;
    if answers == [] {
    } else {
      var n := |answers| - 1;
      AloneInWorld(w, tid, answers[..n]);
      TakeNext(w, Runs(tid, answers[..n]), Run(tid, answers[n]));
      OneMoreAlone(TakeAll(w, Runs(tid, answers[..n])), tid, answers[n]);
    }
  }
}
