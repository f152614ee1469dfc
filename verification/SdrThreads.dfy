/**
 The AI SDR service at the granularity of single database and provider calls. A thread is
 one service call in progress: its constructor names the statement it issues next and
 holds what it has read so far. Any number of threads interleave, each may see a statement
 fail before or after it took effect, and each may crash between two statements.
*/
module SdrThreads {
  import opened Wrappers
  import opened OutboundProvider
  import opened SdrModel

  /** What the send gate has read: draft row as it was, recipient, and the approval found. */
  datatype SendCtx = SendCtx(d: nat, fixture: Fixture, draft: Draft, email: string, approval: nat)

  /** A draft to generate for sequence q, and the purposes to draft after it. */
  datatype DraftCtx = DraftCtx(q: nat, purpose: Purpose, rest: seq<Purpose>)

  datatype Thread =
    // executeSend
    | SendPaused(d: nat, fixture: Fixture)
    | SendReadDraft(d: nat, fixture: Fixture)
    | SendReadSequence(d: nat, fixture: Fixture, draft: Draft)
    | SendReadApproval(d: nat, fixture: Fixture, draft: Draft, email: string)
    | SendReadCandidate(c: SendCtx)
    | SendFindMessage(c: SendCtx)
    | SendCreateMessage(c: SendCtx)
    | SendLiveCheck(c: SendCtx, m: nat)
    | SendBlocked(m: nat)
    | SendMark(c: SendCtx, m: nat)
    | SendProvider(c: SendCtx, m: nat)
    | SendRecord(c: SendCtx, m: nat, id: ProviderMessageId)
    | SendDraft(c: SendCtx, m: nat)
    | SendActivate(c: SendCtx, m: nat)
    | SendSync(m: nat)
    | SendCatch(m: nat)
    // createSequence
    | SequencePaused(target: Option<string>, drafting: bool)
    | SequenceCandidate(target: Option<string>, drafting: bool)
    | SequenceResearch(target: Option<string>, drafting: bool)
    | SequenceInsert(target: Option<string>, drafting: bool)
    // createDraft
    | DraftPaused(g: DraftCtx)
    | DraftReadSequence(g: DraftCtx)
    | DraftResearch(g: DraftCtx)
    | DraftPropose(g: DraftCtx)
    | DraftInsertBooking(g: DraftCtx)
    | DraftGenerate(g: DraftCtx)
    | DraftFindPrior(g: DraftCtx, text: (string, string))
    | DraftSupersede(g: DraftCtx, text: (string, string), todo: seq<nat>)
    | DraftRevoke(g: DraftCtx, text: (string, string), todo: seq<nat>)
    | DraftVersion(g: DraftCtx, text: (string, string))
    | DraftInsert(g: DraftCtx, text: (string, string), version: nat)
    | DraftMove(g: DraftCtx)
    // approveDraft, revokeApproval, rejectDraft
    | ApproveRead(d: nat)
    | ApproveInsert(d: nat, draft: Draft)
    | ApproveMark(d: nat, q: nat)
    | ApproveMove(q: nat)
    | RevokeRead(d: nat)
    | RevokeRows(d: nat)
    | RevokeMark(d: nat)
    | RejectRead(d: nat)
    | RejectRows(d: nat)
    | RejectMark(d: nat)
    // ingestReply
    | ReplySeen(e: ReplyEvent)
    | ReplyCorrelate(e: ReplyEvent)
    | ReplyReadSequence(e: ReplyEvent, q: nat, message: Option<nat>)
    | ReplyInsert(e: ReplyEvent, q: nat, message: Option<nat>)
    | ReplyStop(e: ReplyEvent, q: nat)
    | ReplyAdapt(e: ReplyEvent, q: nat)
    // confirmMeeting
    | ConfirmRead(q: nat)
    | ConfirmFindBooking(q: nat, status: SequenceStatus)
    | ConfirmProvider(q: nat, b: nat)
    | ConfirmBook(q: nat, b: nat)
    | ConfirmComplete(q: nat)
    | Finished

  /** What the outside answers to one statement, where the statement asks it. */
  datatype Answer = Answer(
    candidateOk: bool, researchOk: bool, proposeOk: bool, confirmOk: bool, crmOk: bool, text: Option<(string, string)>)

  predicate Initial(t: Thread)
  {
    || t.SendPaused? || t.SequencePaused? || t.ApproveRead? || t.RevokeRead? || t.RejectRead? || t.ReplySeen?
    || t.ConfirmRead? || (t.DraftPaused? && t.g.rest == [])
  }

  function InputOf(tenantId: string, c: SendCtx): SendInput
  {
    SendInput(KeyOf(tenantId, c.d, c.draft), c.d, c.email, OrEmpty(c.draft.subject), c.draft.body, c.fixture)
  }

  predicate VersionTaken(drafts: seq<Draft>, q: nat, version: nat)
  {
    exists d | 0 <= d < |drafts| :: drafts[d].sequenceId == q && drafts[d].version == version
  }

  /** Ids of the open drafts of a purpose, oldest first. */
  function Prior(drafts: seq<Draft>, q: nat, purpose: Purpose): (todo: seq<nat>)
    ensures forall p <- todo :: p < |drafts|
  {
    if drafts == [] then []
    else
      var last := |drafts| - 1;
      var row := drafts[last];
      Prior(drafts[..last], q, purpose)
        + (if row.sequenceId == q && row.purpose == purpose && Open(row.status) then [last] else [])
  }

  function UpdateDraft(db: Db, d: nat, status: DraftStatus): Db
  {
    if d < |db.drafts| then SetDraft(db, d, status) else db
  }

  function UpdateSequence(db: Db, q: nat, status: SequenceStatus): Db
  {
    if q < |db.sequences| then SetSequence(db, q, status) else db
  }

  function UpdateMessage(db: Db, m: nat, status: MessageStatus, crm: CrmSync): Db
  {
    if m < |db.messages| then SetMessage(db, m, db.messages[m].(status := status, crmSync := crm)) else db
  }

  // --------------------------------------------------------- what a statement writes

  predicate IsSend(t: Thread)
  {
    || t.SendPaused? || t.SendReadDraft? || t.SendReadSequence? || t.SendReadApproval? || t.SendReadCandidate?
    || t.SendFindMessage? || t.SendCreateMessage? || t.SendLiveCheck? || t.SendBlocked? || t.SendMark?
    || t.SendProvider? || t.SendRecord? || t.SendDraft? || t.SendActivate? || t.SendSync? || t.SendCatch?
  }

  predicate IsDrafting(t: Thread)
  {
    || t.SequencePaused? || t.SequenceCandidate? || t.SequenceResearch? || t.SequenceInsert? || t.DraftPaused?
    || t.DraftReadSequence? || t.DraftResearch? || t.DraftPropose? || t.DraftInsertBooking? || t.DraftGenerate?
    || t.DraftFindPrior? || t.DraftSupersede? || t.DraftRevoke? || t.DraftVersion? || t.DraftInsert? || t.DraftMove?
  }

  /** What executeSend's statements write. */
  function WriteSend(db: Db, t: Thread, ans: Answer): Db
  {
    match t
    case SendCreateMessage(c) =>
      var key := KeyOf(db.tenantId, c.d, c.draft);
      if FindMessage(db.messages, key).Some? then db
      else InsertMessage(db, c.draft.sequenceId, c.d, c.approval, key)
    case SendBlocked(m) => UpdateMessage(db, m, MsgFailed, SyncNone)
    case SendMark(_, m) => if m < |db.messages| then UpdateMessage(db, m, MsgSending, db.messages[m].crmSync) else db
    case SendRecord(_, m, id) =>
      if m >= |db.messages| then db
      else SetMessage(db, m, db.messages[m].(status := MsgSent, providerMessageId := Some(id), crmSync := SyncPending))
    case SendDraft(c, _) => UpdateDraft(db, c.d, DraftSent)
    case SendActivate(c, _) => MoveSequence(db, c.draft.sequenceId, SeqActive)
    case SendSync(m) =>
      if m < |db.messages| && db.messages[m].status == MsgSent
      then UpdateMessage(db, m, MsgSent, if ans.crmOk then SyncCompleted else SyncFailed) else db
    case SendCatch(m) => UpdateMessage(db, m, MsgFailed, SyncNone)
    case _ => db
  }

  /** What createSequence's and createDraft's statements write. */
  function WriteDraft(db: Db, t: Thread): Db
  {
    match t
    case SequenceInsert(email, _) => db.(sequences := db.sequences + [Sequence(SeqDrafting, email)])
    case DraftInsertBooking(g) => InsertBooking(db, g.q)
    case DraftSupersede(_, _, todo) => if todo == [] then db else UpdateDraft(db, todo[0], DraftSuperseded)
    case DraftRevoke(_, _, todo) => if todo == [] then db else RevokeActive(db, todo[0])
    case DraftInsert(g, text, version) =>
      if VersionTaken(db.drafts, g.q, version) then db else InsertDraft(db, g.q, version, g.purpose, text)
    case DraftMove(g) => MoveSequence(db, g.q, SeqAwaiting)
    case _ => db
  }

  /** What the statements of decisions, replies and meeting confirmations write. */
  function WriteOther(db: Db, t: Thread): Db
  {
    match t
    case ApproveInsert(d, draft) => InsertApproval(db, d, draft)
    case ApproveMark(d, _) => UpdateDraft(db, d, DraftApproved)
    case ApproveMove(q) => MoveSequence(db, q, SeqApproved)
    case RevokeRows(d) => RevokeActive(db, d)
    case RevokeMark(d) => UpdateDraft(db, d, DraftAwaiting)
    case RejectRows(d) => RevokeActive(db, d)
    case RejectMark(d) => UpdateDraft(db, d, DraftRejected)
    case ReplyInsert(e, q, message) =>
      if SeenReply(db.replies, e.providerEventId) then db
      else InsertReply(db, q, message, e.providerEventId, e.classification)
    case ReplyStop(e, q) => UpdateSequence(db, q, ReplyStatus(e.classification))
    case ConfirmBook(_, b) => if b < |db.bookings| then SetBooked(db, b) else db
    case ConfirmComplete(q) => UpdateSequence(db, q, SeqCompleted)
    case _ => db
  }

  /** The effect of a thread's next statement on the tables. */
  function Write(db: Db, t: Thread, ans: Answer): Db
  {
    if IsSend(t) then WriteSend(db, t, ans) else if IsDrafting(t) then WriteDraft(db, t) else WriteOther(db, t)
  }

  /** The provider is called by exactly one statement. */
  function Call(tenantId: string, mail: Mailer, t: Thread): Mailer
  {
    if t.SendProvider? then SendEmail(mail, InputOf(tenantId, t.c)).0 else mail
  }

  function AfterDraft(g: DraftCtx): Thread
  {
    if g.rest == [] then Finished else DraftPaused(DraftCtx(g.q, g.rest[0], g.rest[1..]))
  }

  /** Where executeSend goes after a statement, given the tables the statement ran on. */
  function NextSend(db: Db, mail: Mailer, t: Thread, ans: Answer): Thread
  {
    match t
    case SendPaused(d, fixture) => if db.agentPaused then Finished else SendReadDraft(d, fixture)
    case SendReadDraft(d, fixture) =>
      if d >= |db.drafts| then Finished else SendReadSequence(d, fixture, db.drafts[d])
    case SendReadSequence(d, fixture, draft) =>
      if draft.sequenceId >= |db.sequences| || Stopped(db.sequences[draft.sequenceId].status) then Finished
      else if draft.status == DraftSuperseded || draft.status == DraftRejected then Finished
      else
        var email := OrEmpty(db.sequences[draft.sequenceId].targetEmail);
        if email == "" then Finished else SendReadApproval(d, fixture, draft, email)
    case SendReadApproval(d, fixture, draft, email) =>
      (match FindActive(db.approvals, d)
       case None => Finished
       case Some(a) =>
         var approval := db.approvals[a];
         if approval.contentHash != draft.contentHash || approval.draftVersion != draft.version then Finished
         else if LiveHash(draft) != approval.contentHash then Finished
         else SendReadCandidate(SendCtx(d, fixture, draft, email, a)))
    case SendReadCandidate(c) => if ans.candidateOk then SendFindMessage(c) else Finished
    case SendFindMessage(c) =>
      (match FindMessage(db.messages, KeyOf(db.tenantId, c.d, c.draft))
       case None => SendCreateMessage(c)
       case Some(m) => if db.messages[m].status == MsgSent then Finished else SendLiveCheck(c, m))
    case SendCreateMessage(c) =>
      if FindMessage(db.messages, KeyOf(db.tenantId, c.d, c.draft)).Some? then Finished
      else SendLiveCheck(c, |db.messages|)
    case SendLiveCheck(c, m) =>
      if c.draft.sequenceId >= |db.sequences| then SendCatch(m)
      else if Stopped(db.sequences[c.draft.sequenceId].status) then SendBlocked(m)
      else SendMark(c, m)
    case SendBlocked(m) => SendCatch(m)
    case SendMark(c, m) => SendProvider(c, m)
    case SendProvider(c, m) =>
      (match SendEmail(mail, InputOf(db.tenantId, c)).1
       case None => SendCatch(m)
       case Some(id) => SendRecord(c, m, id))
    case SendRecord(c, m, _) => SendDraft(c, m)
    case SendDraft(c, m) => SendActivate(c, m)
    case SendActivate(_, m) => SendSync(m)
    case _ => Finished
  }

  /** Where createSequence and createDraft go. */
  function NextDraft(db: Db, t: Thread, ans: Answer): Thread
  {
    match t
    case SequencePaused(email, drafting) => if db.agentPaused then Finished else SequenceCandidate(email, drafting)
    case SequenceCandidate(email, drafting) => if ans.candidateOk then SequenceResearch(email, drafting) else Finished
    case SequenceResearch(email, drafting) => if ans.researchOk then SequenceInsert(email, drafting) else Finished
    case SequenceInsert(_, drafting) =>
      if drafting then DraftPaused(DraftCtx(|db.sequences|, Outreach, [])) else Finished
    case DraftPaused(g) => if db.agentPaused then Finished else DraftReadSequence(g)
    case DraftReadSequence(g) =>
      if g.q >= |db.sequences| then Finished
      else
        var status := db.sequences[g.q].status;
        if Stopped(status) && status != SeqReplied then Finished
        else if status == SeqReplied && g.purpose == Outreach then Finished
        else DraftResearch(g)
    case DraftResearch(g) =>
      if !ans.researchOk then Finished else if g.purpose == Meeting then DraftPropose(g) else DraftGenerate(g)
    case DraftPropose(g) => if ans.proposeOk then DraftInsertBooking(g) else Finished
    case DraftInsertBooking(g) => DraftGenerate(g)
    case DraftGenerate(g) => if ans.text.Some? then DraftFindPrior(g, ans.text.value) else Finished
    case DraftFindPrior(g, text) => DraftSupersede(g, text, Prior(db.drafts, g.q, g.purpose))
    case DraftSupersede(g, text, todo) => if todo == [] then DraftVersion(g, text) else DraftRevoke(g, text, todo)
    case DraftRevoke(g, text, todo) => DraftSupersede(g, text, if todo == [] then [] else todo[1..])
    case DraftVersion(g, text) => DraftInsert(g, text, MaxVersion(db.drafts, g.q) + 1)
    case DraftInsert(g, _, version) => if VersionTaken(db.drafts, g.q, version) then Finished else DraftMove(g)
    case DraftMove(g) => AfterDraft(g)
    case _ => Finished
  }

  /** Where the human decisions, replies and meeting confirmations go. */
  function NextOther(db: Db, t: Thread, ans: Answer): Thread
  {
    match t
    case ApproveRead(d) =>
      if d >= |db.drafts| || db.drafts[d].status in {DraftSuperseded, DraftRejected, DraftSent} then Finished
      else if LiveHash(db.drafts[d]) != db.drafts[d].contentHash then Finished
      else ApproveInsert(d, db.drafts[d])
    case ApproveInsert(d, draft) => ApproveMark(d, draft.sequenceId)
    case ApproveMark(_, q) => ApproveMove(q)
    case RevokeRead(d) => if d < |db.drafts| then RevokeRows(d) else Finished
    case RevokeRows(d) => if HasActive(db, d) then RevokeMark(d) else Finished
    case RejectRead(d) =>
      if d >= |db.drafts| || db.drafts[d].status in {DraftSent, DraftRejected, DraftSuperseded} then Finished
      else RejectRows(d)
    case RejectRows(d) => RejectMark(d)
    case ReplySeen(e) => if SeenReply(db.replies, e.providerEventId) then Finished else ReplyCorrelate(e)
    case ReplyCorrelate(e) =>
      (match e.providerMessageId
       case Some(p) =>
         (match FindByProviderId(db.messages, p)
          case None => Finished
          case Some(m) =>
            var q := db.messages[m].sequenceId;
            if e.sequenceId.Some? && e.sequenceId.value != q then Finished else ReplyReadSequence(e, q, Some(m)))
       case None =>
         if e.fromWebhook || e.sequenceId.None? then Finished else ReplyReadSequence(e, e.sequenceId.value, None))
    case ReplyReadSequence(e, q, message) => if q < |db.sequences| then ReplyInsert(e, q, message) else Finished
    case ReplyInsert(e, q, _) => if SeenReply(db.replies, e.providerEventId) then Finished else ReplyStop(e, q)
    case ReplyStop(e, q) =>
      if e.classification == Positive || e.classification == Question then ReplyAdapt(e, q) else Finished
    case ReplyAdapt(e, q) =>
      if db.agentPaused then Finished
      else DraftPaused(DraftCtx(q, Reply, if e.classification == Positive then [Meeting] else []))
    case ConfirmRead(q) => if q < |db.sequences| then ConfirmFindBooking(q, db.sequences[q].status) else Finished
    case ConfirmFindBooking(q, status) =>
      (match FindBooking(db.bookings, q)
       case None => Finished
       case Some(b) => if status == SeqCancelled then Finished else ConfirmProvider(q, b))
    case ConfirmProvider(q, b) => if ans.confirmOk then ConfirmBook(q, b) else Finished
    case ConfirmBook(q, _) => ConfirmComplete(q)
    case _ => Finished
  }

  function Next(db: Db, mail: Mailer, t: Thread, ans: Answer): Thread
  {
    if IsSend(t) then NextSend(db, mail, t, ans)
    else if IsDrafting(t) then NextDraft(db, t, ans)
    else NextOther(db, t, ans)
  }

  /** Inside executeSend's try block an error is caught and marks the message FAILED; elsewhere it ends the call. */
  function OnError(t: Thread): Thread
  {
    match t
    case SendLiveCheck(_, m) => SendCatch(m)
    case SendBlocked(m) => SendCatch(m)
    case SendMark(_, m) => SendCatch(m)
    case SendProvider(_, m) => SendCatch(m)
    case SendRecord(_, m, _) => SendCatch(m)
    case SendDraft(_, m) => SendCatch(m)
    case SendActivate(_, m) => SendCatch(m)
    case SendSync(m) => SendCatch(m)
    case _ => Finished
  }

  // ------------------------------------------------------------------ worlds

  datatype World = World(db: Db, mail: Mailer, threads: seq<Thread>)

  datatype Step =
    | Spawn(t: Thread)
    | Run(tid: nat, ans: Answer)
    | FailBefore(tid: nat)
    | FailAfter(tid: nat, ans: Answer)
    | Crash(tid: nat)
    | SetPaused(paused: bool)

  function Issue(w: World, tid: nat, ans: Answer, next: Thread): World
    requires tid < |w.threads|
  {
    var t := w.threads[tid];
    World(Write(w.db, t, ans), Call(w.db.tenantId, w.mail, t), w.threads[tid := next])
  }

  function Take(w: World, step: Step): World
  {
    match step
    case Spawn(t) => if Initial(t) then w.(threads := w.threads + [t]) else w
    case Run(tid, ans) =>
      if tid >= |w.threads| then w else Issue(w, tid, ans, Next(w.db, w.mail, w.threads[tid], ans))
    case FailBefore(tid) =>
      if tid >= |w.threads| then w else w.(threads := w.threads[tid := OnError(w.threads[tid])])
    case FailAfter(tid, ans) =>
      if tid >= |w.threads| then w else Issue(w, tid, ans, OnError(w.threads[tid]))
    case Crash(tid) => if tid >= |w.threads| then w else w.(threads := w.threads[tid := Finished])
    case SetPaused(p) => w.(db := w.db.(agentPaused := p))
  }

  function TakeAll(w: World, steps: seq<Step>): World
  {
    if steps == [] then w else Take(TakeAll(w, steps[..|steps| - 1]), steps[|steps| - 1])
  }

  function Start(tenantId: string): World
  {
    World(Db(tenantId, false, [], [], [], [], [], []), Mailer(map[], [], []), [])
  }

  lemma TakeNext(w: World, steps: seq<Step>, step: Step)
    ensures TakeAll(w, steps + [step]) == Take(TakeAll(w, steps), step)
  {
    assert (steps + [step])[..|steps|] == steps;
  }

  lemma TakeOne(w: World, step: Step)
    ensures TakeAll(w, [step]) == Take(w, step)
  {
    TakeNext(w, [], step);
    assert [] + [step] == [step];
  }

  lemma TakeTwo(w: World, a: Step, b: Step)
    ensures TakeAll(w, [a, b]) == Take(Take(w, a), b)
  {
    TakeNext(w, [], a);
    TakeNext(w, [a], b);
    assert [] + [a] == [a] && [a] + [b] == [a, b];
  }

  lemma TakeThree(w: World, a: Step, b: Step, c: Step)
    ensures TakeAll(w, [a, b, c]) == Take(Take(Take(w, a), b), c)
  {
    TakeNext(w, [], a);
    TakeNext(w, [a], b);
    TakeNext(w, [a, b], c);
    assert [] + [a] == [a] && [a] + [b] == [a, b] && [a, b] + [c] == [a, b, c];
  }

  lemma TakeSum(w: World, first: seq<Step>, rest: seq<Step>)
    ensures TakeAll(w, first + rest) == TakeAll(TakeAll(w, first), rest)
    decreases |rest|
  {
    if rest == [] {
      assert first + rest == first;
    } else {
      var n := |rest| - 1;
      assert (first + rest)[..|first + rest| - 1] == first + rest[..n];
      TakeSum(w, first, rest[..n]);
    }
  }
}
