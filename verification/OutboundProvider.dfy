/**
 The outbound e-mail provider: a table from idempotency key to the result of the one
 delivery it accepted under that key.
*/
module OutboundProvider {
  import opened Wrappers

  /** SHA-256 as an injective constructor: equal digests have equal material. */
  datatype Digest = Sha256(material: string)

  /** send:{tenantId}:{draftId}:{contentHash}; a row id is the row's position in its table. */
  datatype SendKey = SendKey(tenantId: string, draftId: nat, contentHash: Digest)

  /** The provider derives its message id from the digest of the whole key. */
  datatype ProviderMessageId = DetMsg(key: SendKey)

  datatype Fixture = Success | TransientFailure | PermanentFailure

  datatype SendInput = SendInput(
    key: SendKey, draftId: nat, toEmail: string, subject: string, body: string, fixture: Fixture)

  /** `delivered` is history: the calls that were accepted, in order. */
  datatype Mailer = Mailer(
    sentByKey: map<SendKey, ProviderMessageId>, sendCalls: seq<SendInput>, delivered: seq<SendInput>)

  function SendEmail(m: Mailer, input: SendInput): (Mailer, Option<ProviderMessageId>)
  {
    if input.key in m.sentByKey then (m, Some(m.sentByKey[input.key]))
    else
      var called := m.(sendCalls := m.sendCalls + [input]);
      if input.fixture != Success then (called, None)
      else
        var result := DetMsg(input.key);
        (called.(sentByKey := m.sentByKey[input.key := result], delivered := m.delivered + [input]),
         Some(result))
  }

  /** The table and the delivery history tell the same story, one delivery per key. */
  ghost predicate OncePerKey(m: Mailer)
  {
    && (forall k <- m.sentByKey :: m.sentByKey[k] == DetMsg(k))
    && (forall i | 0 <= i < |m.delivered| :: m.delivered[i].key in m.sentByKey)
    && (forall k <- m.sentByKey :: exists i :: 0 <= i < |m.delivered| && m.delivered[i].key == k)
    && (forall i, j | 0 <= i < j < |m.delivered| :: m.delivered[i].key != m.delivered[j].key)
  }

  /** Sending keeps one delivery per key, whatever the fixture, and answers a known key with its delivery. */
  lemma SendKeepsOncePerKey(m: Mailer, input: SendInput)
    requires OncePerKey(m)
    ensures var (m', r) := SendEmail(m, input);
      && OncePerKey(m')
      && (r.Some? ==> r == Some(DetMsg(input.key)) && input.key in m'.sentByKey)
      && (input.key in m.sentByKey ==> r.Some? && m' == m)
  {
    if input.key !in m.sentByKey && input.fixture == Success {
      AcceptKeepsOncePerKey(m, input);
    }
  }

  lemma AcceptKeepsOncePerKey(m: Mailer, input: SendInput)
    requires OncePerKey(m) && input.key !in m.sentByKey && input.fixture == Success
    ensures OncePerKey(SendEmail(m, input).0)
  {
    var m' := SendEmail(m, input).0;
    assert m'.delivered == m.delivered + [input];
    forall k <- m'.sentByKey ensures exists i :: 0 <= i < |m'.delivered| && m'.delivered[i].key == k {
      if k in m.sentByKey {
        var i :| 0 <= i < |m.delivered| && m.delivered[i].key == k;
        assert m'.delivered[i].key == k;
      } else {
        assert m'.delivered[|m.delivered|].key == k;
      }
    }
    forall i, j | 0 <= i < j < |m'.delivered| ensures m'.delivered[i].key != m'.delivered[j].key {
      assert i < |m.delivered| && m.delivered[i].key in m.sentByKey;
    }
  }

  /** The key as the text the service builds from its three parts. */
  function KeyText(tenantId: string, draftId: string, contentHash: string): string
  {
    "send:" + tenantId + ":" + draftId + ":" + contentHash
  }

  /** Two texts with the same first colon agree on both sides of it. */
  lemma {:induction false} SplitAtColon(a: string, x: string, b: string, y: string)
    requires ':' !in a && ':' !in b
    requires a + ":" + x == b + ":" + y
    ensures a == b && x == y
  {
    var s, t := a + ":" + x, b + ":" + y;
    assert s[|a|] == ':' && t[|b|] == ':';
    assert |a| == |b|;
    assert a == s[..|a|] && b == t[..|b|];
    assert x == s[|a| + 1..] && y == t[|b| + 1..];
  }

  /** With colon-free row ids, equal key texts come from equal parts: the constructor above loses nothing. */
  lemma KeyTextInjective(t1: string, d1: string, h1: string, t2: string, d2: string, h2: string)
    requires ':' !in t1 && ':' !in t2 && ':' !in d1 && ':' !in d2
    requires KeyText(t1, d1, h1) == KeyText(t2, d2, h2)
    ensures t1 == t2 && d1 == d2 && h1 == h2
  {
    var k1, k2 := KeyText(t1, d1, h1), KeyText(t2, d2, h2);
    assert k1[5..] == t1 + ":" + (d1 + ":" + h1);
    assert k2[5..] == t2 + ":" + (d2 + ":" + h2);
    SplitAtColon(t1, d1 + ":" + h1, t2, d2 + ":" + h2);
    SplitAtColon(d1, h1, d2, h2);
  }

  class DeterministicOutboundProvider {
    var sendCalls: seq<SendInput>
    var sentByKey: map<SendKey, ProviderMessageId>
    ghost var delivered: seq<SendInput>

    ghost function View(): Mailer
      reads this
    {
      Mailer(sentByKey, sendCalls, delivered)
    }

    constructor ()
      ensures View() == Mailer(map[], [], [])
    {
      sendCalls, sentByKey, delivered := [], map[], [];
    }

    method Send(input: SendInput) returns (r: Option<ProviderMessageId>)
      modifies this
      ensures (View(), r) == SendEmail(old(View()), input)
    {
      if input.key in sentByKey {
        return Some(sentByKey[input.key]);
      }
      sendCalls := sendCalls + [input];
      if input.fixture == TransientFailure || input.fixture == PermanentFailure {
        return None;
      }
      var result := DetMsg(input.key);
      sentByKey := sentByKey[input.key := result];
      delivered := delivered + [input];
      return Some(result);
    }
  }
}
