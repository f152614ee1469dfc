/**
 Replay suppression: a webhook is accepted only within five minutes of its timestamp, and its
 event id is marked for 24 hours. Times are milliseconds on one clock.
*/
module WebhookReplay {
  import opened Wrappers

  const TTL := 86400000.0

  const MAX_SKEW := 300000.0

  const MILLISECONDS_FROM := 1000000000000.0

  /** One delivery: the same body and headers give the same value. `ts` is None when it is no finite number. */
  datatype Delivery = Delivery(tenantId: string, eventId: string, ts: Option<real>, signed: bool, payloadOk: bool, body: string)

  /** How the database and the queue answer; a job may be enqueued although the call throws. */
  datatype Env = Env(logOk: bool, enqueued: bool, ack: bool)

  /** One request: when it checks freshness, when its SET NX runs, in that order. */
  datatype Request = Request(delivery: Delivery, checkAt: real, markAt: real, env: Env)

  datatype Response = Unsigned | Stale | DuplicateEvent | Invalid | Failed | Accepted

  /** Event ids with the instant their mark expires, and the jobs enqueued. */
  datatype Inbox = Inbox(marks: map<string, real>, queue: seq<Delivery>)

  /** Millisecond timestamps as they are, smaller ones as seconds. */
  function TimestampMs(ts: real): real
  {
    if ts > MILLISECONDS_FROM then ts else ts * 1000.0
  }

  predicate IsTimestampFresh(ts: Option<real>, now: real)
  {
    ts.Some? && 0.0 <= now - TimestampMs(ts.value) <= MAX_SKEW
  }

  predicate Marked(inbox: Inbox, id: string, now: real)
  {
    id in inbox.marks && now < inbox.marks[id]
  }

  function Handle(inbox: Inbox, r: Request): (Inbox, Response)
  {
    var d := r.delivery;
    if !d.signed then (inbox, Unsigned)
    else if !IsTimestampFresh(d.ts, r.checkAt) then (inbox, Stale)
    else if Marked(inbox, d.eventId, r.markAt) then (inbox, DuplicateEvent)
    else
      var marked := inbox.(marks := inbox.marks[d.eventId := r.markAt + TTL]);
      if !d.payloadOk then (marked, Invalid)
      else if !r.env.logOk then (marked, Failed)
      else
        (if r.env.enqueued then marked.(queue := marked.queue + [d]) else marked,
         if r.env.enqueued && r.env.ack then Accepted else Failed)
  }

  function ReceiveAll(requests: seq<Request>): Inbox
  {
    if requests == [] then Inbox(map[], [])
    else Handle(ReceiveAll(requests[..|requests| - 1]), requests[|requests| - 1]).0
  }

  /** A request is fresh in the five minutes after the instant its timestamp names, ends included. */
  lemma FreshExactlyWhen(ms: real, now: real)
    requires ms > 1000000000000.0
    ensures IsTimestampFresh(Some(ms), now) <==> ms <= now <= ms + 300000.0
  {}

  /** Seconds and milliseconds of one instant are fresh at the same times, up to the year 33658. */
  lemma SecondsAreMilliseconds(ms: real, now: real)
    requires 1000000000000.0 < ms <= 1000000000000000.0
    ensures IsTimestampFresh(Some(ms / 1000.0), now) <==> IsTimestampFresh(Some(ms), now)
  {
    assert ms / 1000.0 <= 1000000000000.0;
  }

  /** A request is let through to the payload: signed, fresh, and its id not marked. */
  predicate Admitted(inbox: Inbox, r: Request)
  {
    && r.delivery.signed && IsTimestampFresh(r.delivery.ts, r.checkAt)
    && (r.delivery.eventId in inbox.marks ==> inbox.marks[r.delivery.eventId] <= r.markAt)
  }

  /**
   A job is enqueued exactly for an admitted request with a valid payload whose log row was
   written and whose job the queue took; only an admitted request leaves a mark, for a day.
  */
  lemma EnqueuesExactlyWhen(inbox: Inbox, r: Request)
    ensures var (inbox1, response) := Handle(inbox, r); var taken := r.delivery.payloadOk && r.env.logOk && r.env.enqueued;
      && inbox1.queue == (if Admitted(inbox, r) && taken then inbox.queue + [r.delivery] else inbox.queue)
      && inbox1.marks == (if Admitted(inbox, r) then inbox.marks[r.delivery.eventId := r.markAt + 86400000.0] else inbox.marks)
      && (response == Accepted <==> Admitted(inbox, r) && taken && r.env.ack)
      && (response == Invalid <==> Admitted(inbox, r) && !r.delivery.payloadOk)
      && (response == Unsigned <==> !r.delivery.signed)
      && (response == Stale <==> r.delivery.signed && !IsTimestampFresh(r.delivery.ts, r.checkAt))
  {}

  /** Over any run every enqueued job is a delivery that was signed, valid and fresh when it was checked. */
  lemma {:induction false} OnlySignedAreEnqueued(requests: seq<Request>, d: Delivery)
    requires d in ReceiveAll(requests).queue
    ensures d.signed && d.payloadOk
    ensures exists i | 0 <= i < |requests| :: requests[i].delivery == d && IsTimestampFresh(d.ts, requests[i].checkAt)
  {
    if requests == [] {
    } else {
      var n := |requests| - 1;
      var before := ReceiveAll(requests[..n]);
      EnqueuesExactlyWhen(before, requests[n]);
      if d in before.queue {
        OnlySignedAreEnqueued(requests[..n], d);
        var i :| 0 <= i < n && requests[..n][i].delivery == d && IsTimestampFresh(d.ts, requests[..n][i].checkAt);
        assert requests[i].delivery == d;
      } else {
        assert requests[n].delivery == d;
      }
    }
  }

  /** Requests in the order their marks are tried, each at most `delay` after its check. */
  ghost predicate Schedule(requests: seq<Request>, delay: real)
  {
    && (forall i | 0 <= i < |requests| :: requests[i].checkAt <= requests[i].markAt <= requests[i].checkAt + delay)
    && (forall i, j | 0 <= i < j < |requests| :: requests[i].markAt <= requests[j].markAt)
  }

  function Jobs(queue: seq<Delivery>, d: Delivery): nat
  {
    if queue == [] then 0 else Jobs(queue[..|queue| - 1], d) + (if queue[|queue| - 1] == d then 1 else 0)
  }

  /** Once a delivery was enqueued its id stays marked for a day from its timestamp on. */
  ghost predicate Outlived(inbox: Inbox, d: Delivery)
  {
    && Jobs(inbox.queue, d) <= 1
    && (Jobs(inbox.queue, d) == 1 ==>
          d.ts.Some? && d.eventId in inbox.marks && inbox.marks[d.eventId] >= TimestampMs(d.ts.value) + TTL)
  }

  lemma JobsNext(queue: seq<Delivery>, e: Delivery, d: Delivery)
    ensures Jobs(queue + [e], d) == Jobs(queue, d) + (if e == d then 1 else 0)
  {
    assert (queue + [e])[..|queue|] == queue;
  }

  lemma ReceiveKeepsOutlived(inbox: Inbox, r: Request, d: Delivery, delay: real)
    requires Outlived(inbox, d) && delay + MAX_SKEW < TTL
    requires r.checkAt <= r.markAt <= r.checkAt + delay
    ensures Outlived(Handle(inbox, r).0, d)
  {
    JobsNext(inbox.queue, r.delivery, d);
  }

  /** Any redeliveries, at any times and among any other requests, enqueue a delivery at most once. */
  lemma {:induction false} EnqueuedAtMostOnce(requests: seq<Request>, d: Delivery, delay: real)
    requires Schedule(requests, delay) && delay + MAX_SKEW < TTL
    ensures Outlived(ReceiveAll(requests), d)
    ensures Jobs(ReceiveAll(requests).queue, d) <= 1
  {
    if requests == [] {
    } else {
      var n := |requests| - 1;
      EnqueuedAtMostOnce(requests[..n], d, delay);
      ReceiveKeepsOutlived(ReceiveAll(requests[..n]), requests[n], d, delay);
    }
  }

  /** No schedule with this delay enqueues anything twice. */
  ghost predicate SuppressesReplays(delay: real)
  {
    forall requests, d | Schedule(requests, delay) :: Jobs(ReceiveAll(requests).queue, d) <= 1
  }

  /** The bound is exact: replays are suppressed if and only if check-to-mark delay plus window stay below the mark's life. */
  lemma SuppressesExactlyWhen(delay: real)
    requires delay >= 0.0
    ensures SuppressesReplays(delay) <==> delay + MAX_SKEW < TTL
  {
    if delay + MAX_SKEW < TTL {
      forall requests, d | Schedule(requests, delay) ensures Jobs(ReceiveAll(requests).queue, d) <= 1 {
        EnqueuedAtMostOnce(requests, d, delay);
      }
    } else {
      var d := Delivery("t", "e", Some(0.0), true, true, "");
      var env := Env(true, true, true);
      var first := Request(d, 0.0, 0.0, env);
      var late := Request(d, MAX_SKEW, MAX_SKEW + delay, env);
      ReceivedTwice(first, late);
      assert Schedule([first, late], delay);
    }
  }

  /** In numbers: replays are suppressed exactly while a check is followed by its mark within 23 hours and 55 minutes. */
  lemma SuppressesWithin(delay: real)
    requires delay >= 0.0
    ensures SuppressesReplays(delay) <==> delay < 86100000.0
  {
    SuppressesExactlyWhen(delay);
  }

  lemma ReceiveNext(requests: seq<Request>, r: Request)
    ensures ReceiveAll(requests + [r]) == Handle(ReceiveAll(requests), r).0
  {
    assert (requests + [r])[..|requests|] == requests;
  }

  lemma ReceivedTwice(first: Request, late: Request)
    requires first.delivery == late.delivery && first.delivery.signed && first.delivery.payloadOk
    requires IsTimestampFresh(first.delivery.ts, first.checkAt) && IsTimestampFresh(late.delivery.ts, late.checkAt)
    requires first.env == Env(true, true, true) == late.env && late.markAt >= first.markAt + TTL
    ensures Jobs(ReceiveAll([first, late]).queue, first.delivery) == 2
  {
    var d := first.delivery;
    var once := Inbox(map[d.eventId := first.markAt + TTL], [d]);
    assert [] + [d] == [d] && Inbox(map[], []).marks[d.eventId := first.markAt + TTL] == once.marks;
    assert Handle(Inbox(map[], []), first).0 == once && Handle(once, late).0.queue == [d] + [d];
    hide Handle;
    ReceiveNext([], first);
    ReceiveNext([first], late);
    assert [] + [first] == [first] && [first] + [late] == [first, late];
    JobsNext([], d, d);
    JobsNext([d], d, d);
  }

  /** The mark is set before payload and database are tried: a request that fails after it cannot be repaired by redelivery. */
  lemma FailureAfterMarkIsFinal(inbox: Inbox, r: Request, again: Request)
    requires Handle(inbox, r).1 in {Invalid, Failed} && again.delivery == r.delivery
    requires IsTimestampFresh(again.delivery.ts, again.checkAt) && r.markAt <= again.markAt < r.markAt + TTL
    ensures Handle(Handle(inbox, r).0, again) == (Handle(inbox, r).0, DuplicateEvent)
  {}

  // ------------------------------------------------ when a delivery is dropped

  /** What request i of the run was answered. */
  function AnswerTo(requests: seq<Request>, i: nat): Response
    requires i < |requests|
  {
    Handle(ReceiveAll(requests[..i]), requests[i]).1
  }

  /** Request i got past freshness and mark, so it set the mark of its event id, which still lives at t. */
  predicate MarksUntil(requests: seq<Request>, i: nat, id: string, t: real)
  {
    && i < |requests|
    && requests[i].delivery.eventId == id
    && AnswerTo(requests, i) !in {Unsigned, Stale, DuplicateEvent}
    && t < requests[i].markAt + TTL
  }

  /** The marks are tried in the order of their times. */
  ghost predicate InOrder(requests: seq<Request>)
  {
    forall i, j | 0 <= i < j < |requests| :: requests[i].markAt <= requests[j].markAt
  }

  lemma MarkNext(inbox: Inbox, r: Request, id: string, t: real)
    ensures Marked(Handle(inbox, r).0, id, t)
      <==> if r.delivery.eventId == id && Handle(inbox, r).1 !in {Unsigned, Stale, DuplicateEvent} then t < r.markAt + TTL
           else Marked(inbox, id, t)
  {}

  lemma MarksUntilNext(requests: seq<Request>, i: nat, id: string, t: real)
    requires requests != []
    ensures var n := |requests| - 1;
      MarksUntil(requests, i, id, t) <==> MarksUntil(requests[..n], i, id, t) || (i == n && MarksUntil(requests, n, id, t))
  {
    var n := |requests| - 1;
    if i < n { assert requests[..n][..i] == requests[..i]; }
  }

  /** An id is marked at t exactly when an earlier request of that id set a mark that lives at t. */
  lemma {:induction false} MarkedExactlyWhen(requests: seq<Request>, id: string, t: real)
    requires InOrder(requests)
    ensures Marked(ReceiveAll(requests), id, t) <==> exists i :: MarksUntil(requests, i, id, t)
  {
    if requests == [] {
      assert !Marked(ReceiveAll(requests), id, t);
    } else {
      var n := |requests| - 1;
      var sets := requests[n].delivery.eventId == id && AnswerTo(requests, n) !in {Unsigned, Stale, DuplicateEvent};
      MarkedExactlyWhen(requests[..n], id, t);
      MarkNext(ReceiveAll(requests[..n]), requests[n], id, t);
      assert MarksUntil(requests, n, id, t) <==> sets && t < requests[n].markAt + TTL;
      forall i: nat
        ensures MarksUntil(requests, i, id, t) <==> MarksUntil(requests[..n], i, id, t) || (i == n && MarksUntil(requests, n, id, t))
      {
        MarksUntilNext(requests, i, id, t);
      }
      forall i: nat | MarksUntil(requests[..n], i, id, t) ensures t < requests[n].markAt + TTL {
        assert requests[i].markAt <= requests[n].markAt;
      }
    }
  }

  /**
   After any run, a signed and fresh request is dropped as a duplicate exactly when some earlier
   request with its event id, of whatever tenant, set a mark less than a day ago, whether or
   not that request went on to enqueue anything.
  */
  lemma DroppedExactlyWhen(requests: seq<Request>, r: Request)
    requires InOrder(requests) && r.delivery.signed && IsTimestampFresh(r.delivery.ts, r.checkAt)
    ensures Handle(ReceiveAll(requests), r).1 == DuplicateEvent
      <==> exists i :: MarksUntil(requests, i, r.delivery.eventId, r.markAt)
  {
    MarkedExactlyWhen(requests, r.delivery.eventId, r.markAt);
  }

  /** So a delivery that was never enqueued can be lost to another tenant's: the mark names no tenant. */
  lemma LostToAnotherTenant(mine: Delivery, theirs: Delivery, at: real, t: real)
    requires mine.tenantId != theirs.tenantId && mine.eventId == theirs.eventId && mine.signed && theirs.signed && theirs.payloadOk
    requires IsTimestampFresh(theirs.ts, at) && IsTimestampFresh(mine.ts, t) && at <= t < at + TTL
    ensures var env := Env(true, true, true);
      var requests := [Request(theirs, at, at, env), Request(mine, t, t, env)];
      AnswerTo(requests, 0) == Accepted && AnswerTo(requests, 1) == DuplicateEvent && Jobs(ReceiveAll(requests).queue, mine) == 0
  {
    var env := Env(true, true, true);
    var a, b := Request(theirs, at, at, env), Request(mine, t, t, env);
    var first := Inbox(map[theirs.eventId := at + TTL], [theirs]);
    assert [] + [theirs] == [theirs];
    assert Inbox(map[], []).marks[theirs.eventId := at + TTL] == first.marks;
    assert Handle(Inbox(map[], []), a) == (first, Accepted);
    assert Handle(first, b) == (first, DuplicateEvent);
    hide Handle;
    assert ReceiveAll([]) == Inbox(map[], []);
    ReceiveNext([], a);
    ReceiveNext([a], b);
    hide ReceiveAll;
    assert [] + [a] == [a] && [a] + [b] == [a, b] && [a, b][..0] == [] && [a, b][..1] == [a];
    assert [] + [theirs] == [theirs];
    JobsNext([], theirs, mine);
  }

  // ------------------------------------------------------------------ service

  class WebhookReceiver {
    var marks: map<string, real>
    var queue: seq<Delivery>

    function View(): Inbox
      reads this
    {
      Inbox(marks, queue)
    }

    constructor ()
      ensures View() == ReceiveAll([])
    {
      marks, queue := map[], [];
    }

    /** SET NX EX: true when the id was already marked. */
    method HasSeenOrMark(id: string, now: real) returns (seen: bool)
      modifies this`marks
      ensures seen == Marked(old(View()), id, now)
      ensures marks == if seen then old(marks) else old(marks)[id := now + TTL]
    {
      seen := id in marks && now < marks[id];
      if !seen {
        marks := marks[id := now + TTL];
      }
    }

    method Receive(r: Request) returns (response: Response)
      modifies this
      ensures (View(), response) == Handle(old(View()), r)
    {
      var d := r.delivery;
      if !d.signed {
        return Unsigned;
      }
      if !IsTimestampFresh(d.ts, r.checkAt) {
        return Stale;
      }
      var duplicate := HasSeenOrMark(d.eventId, r.markAt);
      if duplicate {
        return DuplicateEvent;
      }
      if !d.payloadOk {
        return Invalid;
      }
      if !r.env.logOk {
        return Failed;
      }
      response := Failed;
      if r.env.enqueued {
        queue := queue + [d];
        if r.env.ack {
          response := Accepted;
        }
      }
    }
  }
}
