/** createDraft and createSequence, statement after statement: the ends of a thread are the results of the call. */
module SdrDraftsAlone {
  import opened Wrappers
  import opened OutboundProvider
  import opened SdrModel
  import opened SdrThreads
  import opened SdrSolo
  import Calls = SdrCalls

  /** The rows after the drafts in `ids` were superseded one by one. */
  function Superseded(db: Db, ids: seq<nat>): Db
    decreases |ids|
  {
    if ids == [] then db else Superseded(SupersedeOne(db, ids[0]), ids[1..])
  }

  function SupersedeOne(db: Db, d: nat): Db
  {
    RevokeActive(UpdateDraft(db, d, DraftSuperseded), d)
  }

  /** The loop over prior drafts alone. */
  lemma {:induction false} SupersedeAlone(db: Db, mail: Mailer, g: DraftCtx, text: (string, string), todo: seq<nat>)
    ensures SameEnds(Solo(db, mail, DraftSupersede(g, text, todo)), Solo(Superseded(db, todo), mail, DraftVersion(g, text)))
    decreases |todo|
  {
    hide SameEnds;
    var s0 := Solo(db, mail, DraftSupersede(g, text, todo));
    if todo == [] {
      Only(s0, Solo(db, mail, DraftVersion(g, text)));
    } else {
      hide SupersedeOne;
      var db2 := SupersedeOne(db, todo[0]);
      SupersedeOneAlone(db, mail, g, text, todo);
      SupersedeAlone(db2, mail, g, text, todo[1..]);
      SameThen(s0, Solo(db2, mail, DraftSupersede(g, text, todo[1..])),
               Solo(Superseded(db2, todo[1..]), mail, DraftVersion(g, text)));
    }
  }

  lemma SupersedeOneAlone(db: Db, mail: Mailer, g: DraftCtx, text: (string, string), todo: seq<nat>)
    requires todo != []
    ensures SameEnds(Solo(db, mail, DraftSupersede(g, text, todo)),
                     Solo(SupersedeOne(db, todo[0]), mail, DraftSupersede(g, text, todo[1..])))
  {
    hide SameEnds, StepAlone;
    var s1 := Solo(UpdateDraft(db, todo[0], DraftSuperseded), mail, DraftRevoke(g, text, todo));
    MarkOneAlone(db, mail, g, text, todo);
    RevokeOneAlone(s1.db, mail, g, text, todo);
    SameThen(Solo(db, mail, DraftSupersede(g, text, todo)), s1,
             Solo(SupersedeOne(db, todo[0]), mail, DraftSupersede(g, text, todo[1..])));
  }

  lemma MarkOneAlone(db: Db, mail: Mailer, g: DraftCtx, text: (string, string), todo: seq<nat>)
    requires todo != []
    ensures SameEnds(Solo(db, mail, DraftSupersede(g, text, todo)),
                     Solo(UpdateDraft(db, todo[0], DraftSuperseded), mail, DraftRevoke(g, text, todo)))
  {
    hide SameEnds, UpdateDraft;
    Only(Solo(db, mail, DraftSupersede(g, text, todo)),
         Solo(UpdateDraft(db, todo[0], DraftSuperseded), mail, DraftRevoke(g, text, todo)));
  }

  lemma RevokeOneAlone(db: Db, mail: Mailer, g: DraftCtx, text: (string, string), todo: seq<nat>)
    requires todo != []
    ensures SameEnds(Solo(db, mail, DraftRevoke(g, text, todo)),
                     Solo(RevokeActive(db, todo[0]), mail, DraftSupersede(g, text, todo[1..])))
  {
    hide SameEnds, RevokeActive;
    Only(Solo(db, mail, DraftRevoke(g, text, todo)),
         Solo(RevokeActive(db, todo[0]), mail, DraftSupersede(g, text, todo[1..])));
  }

  /** One by one is all at once. */
  lemma {:induction false} SupersededRows(db: Db, ids: seq<nat>)
    requires forall p <- ids :: p < |db.drafts|
    ensures var db1 := Superseded(db, ids);
      && |db1.drafts| == |db.drafts|
      && |db1.approvals| == |db.approvals|
      && (forall d | 0 <= d < |db.drafts| ::
            db1.drafts[d] == if d in ids then db.drafts[d].(status := DraftSuperseded) else db.drafts[d])
      && (forall a | 0 <= a < |db.approvals| ::
            db1.approvals[a] == if db.approvals[a].draftId in ids then db.approvals[a].(active := false) else db.approvals[a])
      && db1 == db.(drafts := db1.drafts, approvals := db1.approvals)
    decreases |ids|
  {
    if ids == [] {
    } else {
      assert ids[0] in ids && ids == [ids[0]] + ids[1..];
      forall p <- ids[1..] ensures p < |db.drafts| { assert p in ids; }
      SupersededRows(SupersedeOne(db, ids[0]), ids[1..]);
    }
  }

  lemma {:induction false} PriorIsPrior(drafts: seq<Draft>, q: nat, purpose: Purpose)
    ensures forall d | 0 <= d < |drafts| :: d in Prior(drafts, q, purpose) <==> Calls.IsPrior(drafts[d], q, purpose)
  {
    if drafts == [] {
    } else {
      PriorIsPrior(drafts[..|drafts| - 1], q, purpose);
    }
  }

  lemma SupersededIsSupersedePrior(db: Db, q: nat, purpose: Purpose)
    ensures Superseded(db, Prior(db.drafts, q, purpose)) == Calls.SupersedePrior(db, q, purpose)
  {
    var ids := Prior(db.drafts, q, purpose);
    var db1, db2 := Superseded(db, ids), Calls.SupersedePrior(db, q, purpose);
    SupersededRows(db, ids);
    PriorIsPrior(db.drafts, q, purpose);
    assert db1.drafts == db2.drafts;
    assert db1.approvals == db2.approvals;
  }

  /** From the generated text on: supersede, number, insert, move the sequence. */
  lemma InsertAlone(db: Db, mail: Mailer, g: DraftCtx, text: (string, string))
    requires g.q < |db.sequences|
    ensures SameEnds(Solo(db, mail, DraftFindPrior(g, text)),
                     Solo(Calls.InsertNextDraft(db, g.q, g.purpose, text), mail, AfterDraft(g)))
  {
    hide SameEnds;
    var s0 := Solo(db, mail, DraftFindPrior(g, text));
    var todo := Prior(db.drafts, g.q, g.purpose);
    var s1 := Solo(db, mail, DraftSupersede(g, text, todo));
    Only(s0, s1);
    SupersedeAlone(db, mail, g, text, todo);
    SupersededIsSupersedePrior(db, g.q, g.purpose);
    var db1 := Calls.SupersedePrior(db, g.q, g.purpose);
    var s2 := Solo(db1, mail, DraftVersion(g, text));
    SameThen(s0, s1, s2);
    NumberAlone(db1, mail, g, text);
    SameThen(s0, s2, Solo(Calls.InsertLatest(db1, g.q, g.purpose, text), mail, AfterDraft(g)));
  }

  lemma NewestIsFree(drafts: seq<Draft>, q: nat)
    ensures !VersionTaken(drafts, q, MaxVersion(drafts, q) + 1)
  {
  }

  lemma NumberAlone(db: Db, mail: Mailer, g: DraftCtx, text: (string, string))
    ensures SameEnds(Solo(db, mail, DraftVersion(g, text)),
                     Solo(Calls.InsertLatest(db, g.q, g.purpose, text), mail, AfterDraft(g)))
  {
    hide SameEnds, MaxVersion, VersionTaken, Prior;
    var version := MaxVersion(db.drafts, g.q) + 1;
    var s2, s3 := Solo(db, mail, DraftVersion(g, text)), Solo(db, mail, DraftInsert(g, text, version));
    VersionAlone(db, mail, g, text);
    hide StepAlone, InsertDraft, MoveSequence;
    NewestIsFree(db.drafts, g.q);
    InsertRowAlone(db, mail, g, text, version);
    SameThen(s2, s3, Solo(Calls.InsertLatest(db, g.q, g.purpose, text), mail, AfterDraft(g)));
  }

  lemma VersionAlone(db: Db, mail: Mailer, g: DraftCtx, text: (string, string))
    ensures SameEnds(Solo(db, mail, DraftVersion(g, text)),
                     Solo(db, mail, DraftInsert(g, text, MaxVersion(db.drafts, g.q) + 1)))
  {
    hide SameEnds, MaxVersion, WriteSend, WriteOther, NextSend, NextOther;
    Only(Solo(db, mail, DraftVersion(g, text)), Solo(db, mail, DraftInsert(g, text, MaxVersion(db.drafts, g.q) + 1)));
  }

  lemma InsertRowAlone(db: Db, mail: Mailer, g: DraftCtx, text: (string, string), version: nat)
    requires !VersionTaken(db.drafts, g.q, version)
    ensures SameEnds(Solo(db, mail, DraftInsert(g, text, version)),
                     Solo(MoveSequence(InsertDraft(db, g.q, version, g.purpose, text), g.q, SeqAwaiting), mail, AfterDraft(g)))
  {
    hide SameEnds, VersionTaken, WriteSend, WriteOther, NextSend, NextOther;
    var db2 := InsertDraft(db, g.q, version, g.purpose, text);
    var s3, s4 := Solo(db, mail, DraftInsert(g, text, version)), Solo(db2, mail, DraftMove(g));
    Only(s3, s4);
    Hop(s3, s4, Solo(MoveSequence(db2, g.q, SeqAwaiting), mail, AfterDraft(g)));
  }

  /** Where createDraft goes with the generator's answer. */
  function Generated(db: Db, mail: Mailer, g: DraftCtx, text: Option<(string, string)>): Solo
    requires g.q < |db.sequences|
  {
    match text
    case None => Solo(db, mail, Finished)
    case Some(t) => Solo(Calls.InsertNextDraft(db, g.q, g.purpose, t), mail, AfterDraft(g))
  }

  lemma GenerateEnds(db: Db, mail: Mailer, g: DraftCtx, e: Solo)
    requires g.q < |db.sequences|
    ensures Ends(Solo(db, mail, DraftGenerate(g)), e) <==> exists text :: Ends(Generated(db, mail, g, text), e)
  {
    var s := Solo(db, mail, DraftGenerate(g));
    EndsAfterStatement(s, e);
    forall ans ensures Ends(StepAlone(s, ans), e) <==> Ends(Generated(db, mail, g, ans.text), e) {
      GenerateStep(db, mail, g, ans, e);
    }
    hide Ends, StepAlone, Generated;
    if text :| Ends(Generated(db, mail, g, text), e) {
      assert Ends(StepAlone(s, Answer(true, true, true, true, true, text)), e);
    }
  }

  lemma GenerateStep(db: Db, mail: Mailer, g: DraftCtx, ans: Answer, e: Solo)
    requires g.q < |db.sequences|
    ensures Ends(StepAlone(Solo(db, mail, DraftGenerate(g)), ans), e) <==> Ends(Generated(db, mail, g, ans.text), e)
  {
    GenerateNext(db, mail, g, ans);
    hide StepAlone;
    if ans.text.Some? { InsertAlone(db, mail, g, ans.text.value); }
    hide Ends;
  }

  lemma GenerateNext(db: Db, mail: Mailer, g: DraftCtx, ans: Answer)
    ensures StepAlone(Solo(db, mail, DraftGenerate(g)), ans)
      == Solo(db, mail, if ans.text.Some? then DraftFindPrior(g, ans.text.value) else Finished)
  {}

  /** The call CreateDraft, and where the thread stands after it. */
  function DraftResult(db: Db, mail: Mailer, g: DraftCtx, env: Calls.DraftEnv): Solo
  {
    var (db', outcome) := Calls.CreateDraft(db, g.q, g.purpose, env);
    Solo(db', mail, if outcome.Done? then AfterDraft(g) else Finished)
  }

  predicate DraftAllowed(db: Db, g: DraftCtx)
  {
    && !db.agentPaused && g.q < |db.sequences|
    && (Stopped(db.sequences[g.q].status) ==> db.sequences[g.q].status == SeqReplied && g.purpose != Outreach)
  }

  lemma DraftGate(db: Db, mail: Mailer, g: DraftCtx)
    ensures SameEnds(Solo(db, mail, DraftPaused(g)), Solo(db, mail, if DraftAllowed(db, g) then DraftResearch(g) else Finished))
  {
    hide SameEnds;
    var s0, s1 := Solo(db, mail, DraftPaused(g)), Solo(db, mail, DraftReadSequence(g));
    if db.agentPaused {
      Only(s0, Solo(db, mail, Finished));
    } else {
      Only(s0, s1);
      Hop(s0, s1, Solo(db, mail, if DraftAllowed(db, g) then DraftResearch(g) else Finished));
    }
  }

  lemma ResearchSplits(db: Db, mail: Mailer, g: DraftCtx, e: Solo)
    ensures Ends(Solo(db, mail, DraftResearch(g)), e)
      <==> Ends(Solo(db, mail, if g.purpose == Meeting then DraftPropose(g) else DraftGenerate(g)), e)
           || Ends(Solo(db, mail, Finished), e)
  {
    hide Ends;
    var no := Answer(true, false, true, true, true, None);
    Splits(Solo(db, mail, DraftResearch(g)), Solo(db, mail, if g.purpose == Meeting then DraftPropose(g) else DraftGenerate(g)), YES,
           Solo(db, mail, Finished), no, e);
  }

  lemma ProposeSplits(db: Db, mail: Mailer, g: DraftCtx, e: Solo)
    ensures Ends(Solo(db, mail, DraftPropose(g)), e)
      <==> Ends(Solo(InsertBooking(db, g.q), mail, DraftGenerate(g)), e) || Ends(Solo(db, mail, Finished), e)
  {
    var no := Answer(true, true, false, true, true, None);
    Only(Solo(db, mail, DraftInsertBooking(g)), Solo(InsertBooking(db, g.q), mail, DraftGenerate(g)));
    hide Ends;
    Splits(Solo(db, mail, DraftPropose(g)), Solo(db, mail, DraftInsertBooking(g)), YES, Solo(db, mail, Finished), no, e);
  }

  /** The tables the generator's answer is applied to. */
  function BeforeText(db: Db, g: DraftCtx): Db
  {
    if g.purpose == Meeting then InsertBooking(db, g.q) else db
  }

  lemma ResearchEnds(db: Db, mail: Mailer, g: DraftCtx, e: Solo)
    requires g.q < |db.sequences|
    ensures Ends(Solo(db, mail, DraftResearch(g)), e)
      <==> e == Solo(db, mail, Finished) || exists text :: Ends(Generated(BeforeText(db, g), mail, g, text), e)
  {
    ResearchSplits(db, mail, g, e);
    ProposeSplits(db, mail, g, e);
    GenerateEnds(BeforeText(db, g), mail, g, e);
    FinishedEnds(Solo(db, mail, Finished), e);
    hide Ends, Generated;
  }

  /** What CreateDraft does with an environment, once allowed. */
  lemma AllowedDraft(db: Db, mail: Mailer, g: DraftCtx, env: Calls.DraftEnv)
    requires DraftAllowed(db, g)
    ensures DraftResult(db, mail, g, env)
      == if !env.researchOk || (g.purpose == Meeting && !env.proposeOk) then Solo(db, mail, Finished)
         else Generated(BeforeText(db, g), mail, g, env.text)
  {
    hide Calls.InsertNextDraft;
  }

  lemma RefusedDraft(db: Db, mail: Mailer, g: DraftCtx, env: Calls.DraftEnv)
    requires !DraftAllowed(db, g)
    ensures DraftResult(db, mail, g, env) == Solo(db, mail, Finished)
  {
    hide Calls.InsertNextDraft;
  }

  /** createDraft alone goes through exactly the results of the call; only a finished draft goes on to the next purpose. */
  lemma CreateDraftAlone(db: Db, mail: Mailer, g: DraftCtx, e: Solo)
    ensures Ends(Solo(db, mail, DraftPaused(g)), e) <==> exists env :: Ends(DraftResult(db, mail, g, env), e)
  {
    DraftGate(db, mail, g);
    FinishedEnds(Solo(db, mail, Finished), e);
    if DraftAllowed(db, g) {
      ResearchEnds(db, mail, g, e);
      hide Ends, Generated, DraftResult, DraftAllowed;
      AllowedEnds(db, mail, g, e);
    } else {
      hide Ends, DraftResult, DraftAllowed;
      forall env ensures DraftResult(db, mail, g, env) == Solo(db, mail, Finished) { RefusedDraft(db, mail, g, env); }
      assert Ends(DraftResult(db, mail, g, Calls.DraftEnv(true, true, None)), e) <==> Ends(Solo(db, mail, Finished), e);
    }
  }

  lemma AllowedEnds(db: Db, mail: Mailer, g: DraftCtx, e: Solo)
    requires DraftAllowed(db, g)
    ensures (exists env :: Ends(DraftResult(db, mail, g, env), e))
      <==> (e == Solo(db, mail, Finished) || exists text :: Ends(Generated(BeforeText(db, g), mail, g, text), e))
  {
    FinishedEnds(Solo(db, mail, Finished), e);
    assert g.q < |db.sequences|;
    hide Ends, Generated, DraftResult, DraftAllowed;
    if text :| Ends(Generated(BeforeText(db, g), mail, g, text), e) {
      AllowedDraft(db, mail, g, Calls.DraftEnv(true, true, text));
    }
    AllowedDraft(db, mail, g, Calls.DraftEnv(false, true, None));
    if env :| Ends(DraftResult(db, mail, g, env), e) {
      AllowedDraft(db, mail, g, env);
    }
  }

  /** A last draft: its results are ends. */
  lemma LastDraftEnds(db: Db, mail: Mailer, g: DraftCtx, e: Solo)
    requires g.rest == []
    ensures Ends(Solo(db, mail, DraftPaused(g)), e)
      <==> exists env :: e == Solo(Calls.CreateDraft(db, g.q, g.purpose, env).0, mail, Finished)
  {
    CreateDraftAlone(db, mail, g, e);
    forall env ensures Ends(DraftResult(db, mail, g, env), e)
      <==> e == Solo(Calls.CreateDraft(db, g.q, g.purpose, env).0, mail, Finished)
    {
      FinishedEnds(DraftResult(db, mail, g, env), e);
      hide Ends, Calls.CreateDraft;
    }
    hide Ends, DraftResult, Calls.CreateDraft;
  }

  // ---------------------------------------------------------- createSequence

  function SequenceResult(db: Db, mail: Mailer, target: Option<string>, candidateOk: bool, researchOk: bool,
    draft: Option<Calls.DraftEnv>): Solo
  {
    Solo(Calls.CreateSequence(db, target, candidateOk, researchOk, draft).0, mail, Finished)
  }

  function WithSequence(db: Db, target: Option<string>): Db
  {
    db.(sequences := db.sequences + [Sequence(SeqDrafting, target)])
  }

  lemma InsertSequenceAlone(db: Db, mail: Mailer, target: Option<string>, drafting: bool)
    ensures SameEnds(Solo(db, mail, SequenceInsert(target, drafting)),
      Solo(WithSequence(db, target), mail, if drafting then DraftPaused(DraftCtx(|db.sequences|, Outreach, [])) else Finished))
  {
    hide SameEnds;
    Only(Solo(db, mail, SequenceInsert(target, drafting)),
      Solo(WithSequence(db, target), mail, if drafting then DraftPaused(DraftCtx(|db.sequences|, Outreach, [])) else Finished));
  }

  /** The row written, a first draft follows or none. */
  lemma InsertSequenceEnds(db: Db, mail: Mailer, target: Option<string>, drafting: bool, e: Solo)
    requires !db.agentPaused
    ensures Ends(Solo(db, mail, SequenceInsert(target, drafting)), e)
      <==> exists draft: Option<Calls.DraftEnv> ::
             draft.Some? == drafting && e == SequenceResult(db, mail, target, true, true, draft)
  {
    InsertSequenceAlone(db, mail, target, drafting);
    if drafting {
      FirstDraftEnds(db, mail, target, e);
      hide Ends, SequenceResult, WithSequence;
    } else {
      var next := Solo(WithSequence(db, target), mail, Finished);
      FinishedEnds(next, e);
      hide Ends, Calls.CreateDraft;
      assert SequenceResult(db, mail, target, true, true, None) == next;
    }
  }

  lemma FirstDraft(db: Db, mail: Mailer, target: Option<string>, env: Calls.DraftEnv)
    requires !db.agentPaused
    ensures SequenceResult(db, mail, target, true, true, Some(env))
      == Solo(Calls.CreateDraft(WithSequence(db, target), |db.sequences|, Outreach, env).0, mail, Finished)
  {
    hide Calls.CreateDraft;
  }

  lemma FirstDraftEnds(db: Db, mail: Mailer, target: Option<string>, e: Solo)
    requires !db.agentPaused
    ensures Ends(Solo(WithSequence(db, target), mail, DraftPaused(DraftCtx(|db.sequences|, Outreach, []))), e)
      <==> exists draft: Option<Calls.DraftEnv> :: draft.Some? && e == SequenceResult(db, mail, target, true, true, draft)
  {
    var db1, q := WithSequence(db, target), |db.sequences|;
    LastDraftEnds(db1, mail, DraftCtx(q, Outreach, []), e);
    hide Ends, Calls.CreateDraft, SequenceResult, WithSequence;
    if env :| e == Solo(Calls.CreateDraft(db1, q, Outreach, env).0, mail, Finished) {
      FirstDraft(db, mail, target, env);
    }
    if draft: Option<Calls.DraftEnv> :| draft.Some? && e == SequenceResult(db, mail, target, true, true, draft) {
      FirstDraft(db, mail, target, draft.value);
    }
  }

  /** Some environment in which the call CreateSequence ends in e. */
  ghost predicate SequenceEnds(db: Db, mail: Mailer, target: Option<string>, drafting: bool, e: Solo)
  {
    exists candidateOk, researchOk, draft: Option<Calls.DraftEnv> ::
      draft.Some? == drafting && e == SequenceResult(db, mail, target, candidateOk, researchOk, draft)
  }

  lemma SequenceSplits(db: Db, mail: Mailer, target: Option<string>, drafting: bool, e: Solo)
    requires !db.agentPaused
    ensures Ends(Solo(db, mail, SequencePaused(target, drafting)), e)
      <==> Ends(Solo(db, mail, SequenceInsert(target, drafting)), e) || e == Solo(db, mail, Finished)
  {
    Only(Solo(db, mail, SequencePaused(target, drafting)), Solo(db, mail, SequenceCandidate(target, drafting)));
    FinishedEnds(Solo(db, mail, Finished), e);
    hide Ends;
    CandidateChecked(db, mail, target, drafting, e);
    ResearchChecked(db, mail, target, drafting, e);
  }

  lemma CandidateChecked(db: Db, mail: Mailer, target: Option<string>, drafting: bool, e: Solo)
    ensures Ends(Solo(db, mail, SequenceCandidate(target, drafting)), e)
      <==> Ends(Solo(db, mail, SequenceResearch(target, drafting)), e) || Ends(Solo(db, mail, Finished), e)
  {
    hide Ends;
    var no := Answer(false, true, true, true, true, None);
    Splits(Solo(db, mail, SequenceCandidate(target, drafting)), Solo(db, mail, SequenceResearch(target, drafting)), YES,
           Solo(db, mail, Finished), no, e);
  }

  lemma ResearchChecked(db: Db, mail: Mailer, target: Option<string>, drafting: bool, e: Solo)
    ensures Ends(Solo(db, mail, SequenceResearch(target, drafting)), e)
      <==> Ends(Solo(db, mail, SequenceInsert(target, drafting)), e) || Ends(Solo(db, mail, Finished), e)
  {
    hide Ends;
    var no := Answer(true, false, true, true, true, None);
    Splits(Solo(db, mail, SequenceResearch(target, drafting)), Solo(db, mail, SequenceInsert(target, drafting)), YES,
           Solo(db, mail, Finished), no, e);
  }

  /** createSequence alone finishes with exactly the results of the call, over all answers it may get. */
  lemma SequenceAlone(db: Db, mail: Mailer, target: Option<string>, drafting: bool, e: Solo)
    ensures Ends(Solo(db, mail, SequencePaused(target, drafting)), e) <==> SequenceEnds(db, mail, target, drafting, e)
  {
    var some := if drafting then Some(Calls.DraftEnv(true, true, None)) else None;
    var stop := Solo(db, mail, Finished);
    hide Ends, SequenceResult;
    forall c, r, draft ensures db.agentPaused || !c || !r ==> SequenceResult(db, mail, target, c, r, draft) == stop {
      RefusedSequence(db, mail, target, c, r, draft);
    }
    assert SequenceResult(db, mail, target, false, true, some) == stop;
    if db.agentPaused {
      PausedSequence(db, mail, target, drafting);
      FinishedEnds(stop, e);
      assert Ends(Solo(db, mail, SequencePaused(target, drafting)), e) <==> e == stop;
    } else {
      SequenceSplits(db, mail, target, drafting, e);
      InsertSequenceEnds(db, mail, target, drafting, e);
    }
  }

  lemma PausedSequence(db: Db, mail: Mailer, target: Option<string>, drafting: bool)
    requires db.agentPaused
    ensures SameEnds(Solo(db, mail, SequencePaused(target, drafting)), Solo(db, mail, Finished))
  {
    hide SameEnds;
    Only(Solo(db, mail, SequencePaused(target, drafting)), Solo(db, mail, Finished));
  }

  lemma RefusedSequence(
      db: Db, mail: Mailer, target: Option<string>, candidateOk: bool, researchOk: bool, draft: Option<Calls.DraftEnv>)
    ensures db.agentPaused || !candidateOk || !researchOk
      ==> SequenceResult(db, mail, target, candidateOk, researchOk, draft) == Solo(db, mail, Finished)
  {
    hide Calls.CreateDraft;
  }
}
