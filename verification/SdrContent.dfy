/** What a content hash and an idempotency key say about the text behind them. */
module SdrContent {
  import opened Wrappers
  import opened OutboundProvider
  import opened SdrModel
  import opened SdrRows
  import opened SdrThreads
  import opened SdrThreadSafety
  import opened SdrThreadTheorems

  /** Two texts with the same first bar agree on both sides of it. */
  lemma SplitAtBar(a: string, x: string, b: string, y: string)
    requires '|' !in a && '|' !in b
    requires a + "|" + x == b + "|" + y
    ensures a == b && x == y
  {
    var s, t := a + "|" + x, b + "|" + y;
    assert s[|a|] == '|' && t[|b|] == '|';
    assert |a| == |b|;
    assert a == s[..|a|] && b == t[..|b|];
    assert x == s[|a| + 1..] && y == t[|b| + 1..];
  }

  lemma PurposesDiffer(p: Purpose, r: Purpose)
    ensures '|' !in PurposeText(p)
    ensures PurposeText(p) == PurposeText(r) ==> p == r
  {
    assert PurposeText(p)[0] == 'o' || PurposeText(p)[0] == 'f' || PurposeText(p)[0] == 'r' || PurposeText(p)[0] == 'm';
  }

  lemma HashParts(channel: string, purpose: Purpose, subject: Option<string>, body: string)
    ensures HashDraftContent(channel, purpose, subject, body)
      == Sha256(channel + "|" + (PurposeText(purpose) + "|" + (OrEmpty(subject) + "|" + body)))
  {
    assert channel + "|" + PurposeText(purpose) + "|" + OrEmpty(subject) + "|" + body
      == channel + "|" + (PurposeText(purpose) + "|" + (OrEmpty(subject) + "|" + body));
  }

  /** Under bar-free channels the hash fixes channel and purpose, and joins subject and body with a bar. */
  lemma SameHashExactlyWhen(
      c1: string, p1: Purpose, s1: Option<string>, b1: string, c2: string, p2: Purpose, s2: Option<string>, b2: string)
    requires '|' !in c1 && '|' !in c2
    ensures HashDraftContent(c1, p1, s1, b1) == HashDraftContent(c2, p2, s2, b2)
      <==> c1 == c2 && p1 == p2 && OrEmpty(s1) + "|" + b1 == OrEmpty(s2) + "|" + b2
  {
    var x1, x2 := OrEmpty(s1) + "|" + b1, OrEmpty(s2) + "|" + b2;
    HashParts(c1, p1, s1, b1);
    HashParts(c2, p2, s2, b2);
    PurposesDiffer(p1, p2);
    PurposesDiffer(p2, p1);
    if HashDraftContent(c1, p1, s1, b1) == HashDraftContent(c2, p2, s2, b2) {
      SplitAtBar(c1, PurposeText(p1) + "|" + x1, c2, PurposeText(p2) + "|" + x2);
      SplitAtBar(PurposeText(p1), x1, PurposeText(p2), x2);
    }
  }

  /** With bar-free subjects too, equal hashes mean equal content. */
  lemma SameHashSameContent(
      c1: string, p1: Purpose, s1: string, b1: string, c2: string, p2: Purpose, s2: string, b2: string)
    requires '|' !in c1 && '|' !in c2 && '|' !in s1 && '|' !in s2
    ensures HashDraftContent(c1, p1, Some(s1), b1) == HashDraftContent(c2, p2, Some(s2), b2)
      <==> c1 == c2 && p1 == p2 && s1 == s2 && b1 == b2
  {
    SameHashExactlyWhen(c1, p1, Some(s1), b1, c2, p2, Some(s2), b2);
    if s1 + "|" + b1 == s2 + "|" + b2 { SplitAtBar(s1, b1, s2, b2); }
  }

  /** Under one channel, purpose and subject, equal hashes mean equal bodies, bars or not. */
  lemma SameHashSameBody(channel: string, purpose: Purpose, subject: Option<string>, b1: string, b2: string)
    ensures HashDraftContent(channel, purpose, subject, b1) == HashDraftContent(channel, purpose, subject, b2) <==> b1 == b2
  {
    var before := channel + "|" + PurposeText(purpose) + "|" + OrEmpty(subject) + "|";
    assert (before + b1)[|before|..] == b1 && (before + b2)[|before|..] == b2;
    assert HashDraftContent(channel, purpose, subject, b1) == Sha256(before + b1);
    assert HashDraftContent(channel, purpose, subject, b2) == Sha256(before + b2);
  }

  /** The limit: a bar in the subject can move into the body, and no subject is an empty one. */
  lemma BarsMove()
    ensures HashDraftContent("email", Outreach, Some("a|b"), "c") == HashDraftContent("email", Outreach, Some("a"), "b|c")
    ensures HashDraftContent("email", Outreach, None, "c") == HashDraftContent("email", Outreach, Some(""), "c")
  {
    SameHashExactlyWhen("email", Outreach, Some("a|b"), "c", "email", Outreach, Some("a"), "b|c");
    assert "a|b" + "|" + "c" == "a" + "|" + "b|c";
  }

  /** One key stands for one tenant, one draft and one content. */
  lemma SameKeyExactlyWhen(t1: string, d1: nat, draft1: Draft, t2: string, d2: nat, draft2: Draft)
    ensures KeyOf(t1, d1, draft1) == KeyOf(t2, d2, draft2)
      <==> t1 == t2 && d1 == d2 && draft1.contentHash == draft2.contentHash
  {}

  /**
   In every reachable world the content hash of an approval row is that of one text only: any
   bar-free subject with any body that hashes to it is the approved draft's own.
  */
  lemma ApprovalFitsOneText(w: World, a: nat, subject: string, body: string)
    requires Reachable(w) && a < |w.db.approvals|
    ensures w.db.approvals[a].draftId < |w.db.drafts|
    ensures var draft := w.db.drafts[w.db.approvals[a].draftId];
      '|' !in subject && '|' !in OrEmpty(draft.subject) && '|' !in draft.channel ==>
        (w.db.approvals[a].contentHash == HashDraftContent(draft.channel, draft.purpose, Some(subject), body)
         <==> subject == OrEmpty(draft.subject) && body == draft.body)
  {
    ReachableIsSafe(w);
    var row := w.db.approvals[a];
    assert ApprovalOk(w.db.drafts, row) && DraftOk(w.db, w.db.drafts[row.draftId]);
    var draft := w.db.drafts[row.draftId];
    hide Safe, RowsOk;
    if '|' !in subject && '|' !in OrEmpty(draft.subject) && '|' !in draft.channel {
      assert LiveHash(draft) == HashDraftContent(draft.channel, draft.purpose, Some(OrEmpty(draft.subject)), draft.body);
      SameHashSameContent(draft.channel, draft.purpose, OrEmpty(draft.subject), draft.body,
                          draft.channel, draft.purpose, subject, body);
    }
  }
}
