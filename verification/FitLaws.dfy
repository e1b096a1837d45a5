/**
 What fitting leaves, said item by item of the conversation that went in and without the
 functions that compute it.
 */
module FitLaws {
  import opened Conversation
  import opened Utf8Truncate
  import opened BudgetFit

  // --------------------------------------------------------------------- one text

  ghost function Least(a: nat, b: nat): nat { if a < b then a else b }

  ghost function Less(a: nat, b: nat): nat { if a < b then 0 else a - b }

  /** The bytes of the first `k` characters. */
  ghost function BytesOf(text: string, k: nat): nat
    requires k <= |text|
  {
    |Encoded(text[..k])|
  }

  /** The first `k` characters are all that fit in `most` bytes. */
  ghost predicate AllThatFits(text: string, k: nat, most: nat) {
    && k <= |text| && BytesOf(text, k) <= most
    && forall j :: k < j <= |text| ==> BytesOf(text, j) > most
  }

  /** The text itself within four bytes a token; else what fits beside the marker, and the marker. */
  ghost predicate IsCut(cut: string, text: string, tokens: nat) {
    var most := Least(4 * tokens, 0xFFFF_FFFF_FFFF_FFFF);
    if BytesOf(text, |text|) <= most then cut == text
    else exists k: nat :: AllThatFits(text, k, Less(most, 64)) && cut == WithMarker(text, k)
  }

  ghost function WithMarker(text: string, k: nat): string
    requires k <= |text| && BytesOf(text, k) <= BytesOf(text, |text|)
  {
    text[..k] + "\n[... truncated " + Decimal(BytesOf(text, |text|) - BytesOf(text, k))
    + " bytes to fit the compaction window ...]"
  }

  lemma {:induction false} WholeText(text: string)
    ensures BytesOf(text, |text|) == |Encoded(text)|
  {
    assert text[..|text|] == text;
  }

  lemma {:induction false} CutIsCut(text: string, tokens: nat)
    ensures IsCut(Cut(text, TokensToBytes(tokens)), text, tokens)
  {
    hide Encoded, KeptChars;
    WholeText(text);
    var most := TokensToBytes(tokens);
    if |Encoded(text)| > most {
      var keep := KeptWithin(most);
      var k := KeptChars(text, keep);
      forall j | k < j <= |text| ensures BytesOf(text, j) > keep {
        EncodedMonotone(text, k + 1, j);
      }
      EncodedPrefix(text, k);
      assert AllThatFits(text, k, Less(most, 64));
      assert Cut(text, most) == WithMarker(text, k);
    }
  }

  // --------------------------------------------------------------------- one item

  ghost predicate IsCutPart(cut: ContentPart, part: ContentPart, tokens: nat) {
    if part.TextPart? then cut.TextPart? && IsCut(cut.text, part.text, tokens) else cut == part
  }

  /** Each text is cut to the tokens; kind, ids, calls, model, images and all else stay. */
  ghost predicate IsCutItem(cut: Item, item: Item, tokens: nat) {
    match item
    case ToolResult(id, output, images) =>
      cut.ToolResult? && cut.toolCallId == id && cut.images == images && IsCut(cut.output, output, tokens)
    case Assistant(content, calls, model) =>
      cut.Assistant? && cut.toolCalls == calls && cut.modelId == model && IsCut(cut.content, content, tokens)
    case User(user) =>
      && cut.User? && cut.user.(content := user.content) == user && |cut.user.content| == |user.content|
      && forall k :: 0 <= k < |user.content| ==> IsCutPart(cut.user.content[k], user.content[k], tokens)
    case _ => cut == item
  }

  lemma {:induction false} TruncatedIsCut(item: Item, tokens: nat)
    ensures IsCutItem(TruncatedItem(item, tokens), item, tokens)
  {
    hide IsCut, Cut;
    forall text ensures IsCut(Cut(text, TokensToBytes(tokens)), text, tokens) {
      CutIsCut(text, tokens);
    }
  }

  // --------------------------------------------------------------------- the tail

  /** `per` tokens are the largest equal share of `left` for `n`, and one at the least. */
  ghost predicate IsShare(per: nat, left: nat, n: nat) {
    per >= 1 && (per == 1 || n * per <= left) && left < n * (per + 1)
  }

  lemma {:induction false} ShareIsShare(budget: nat, ownerCost: nat, n: nat)
    requires n > 0
    ensures IsShare(PerResult(budget, ownerCost, n), Less(budget, ownerCost), n)
  {
    var left := Less(budget, ownerCost);
    assert left == n * (left / n) + left % n;
    assert n * (left / n + 1) == n * (left / n) + n;
  }

  /** The results from `r` on end the body. */
  ghost predicate LastRun(body: seq<Item>, r: nat) {
    && r < |body| && (forall k :: r <= k < |body| ==> body[k].ToolResult?)
    && (r > 0 ==> !body[r - 1].ToolResult?)
  }

  ghost predicate OwnedRun(body: seq<Item>, r: nat)
    requires r <= |body|
  {
    r > 0 && body[r - 1].Assistant? && body[r - 1].toolCalls != []
  }

  ghost predicate AllCut(cut: seq<Item>, run: seq<Item>, tokens: nat) {
    |cut| == |run| && forall k :: 0 <= k < |run| ==> IsCutItem(cut[k], run[k], tokens)
  }

  ghost predicate CutInShares(cut: seq<Item>, run: seq<Item>, left: nat) {
    exists per: nat :: IsShare(per, left, |run|) && AllCut(cut, run, per)
  }

  /** All results of the run cut to their share, behind their owner, which is not cut, if there is one. */
  ghost predicate IsCutRun(tail: seq<Item>, body: seq<Item>, r: nat, budget: nat, est: Estimator)
    requires r < |body|
  {
    var owned := OwnedRun(body, r);
    var left, owners := Less(budget, if owned then est(body[r - 1]) else 0), if owned then 1 else 0;
    && |tail| >= owners && (owned ==> tail[0] == body[r - 1])
    && CutInShares(tail[owners..], body[r..], left)
  }

  /** What becomes of a body no whole turn of which fits: its last item, or its last run, is cut and kept. */
  ghost predicate IsCutTail(tail: seq<Item>, body: seq<Item>, budget: nat, est: Estimator) {
    && (body == [] ==> tail == [])
    && (body != [] && !body[|body| - 1].ToolResult? ==>
          |tail| == 1 && IsCutItem(tail[0], body[|body| - 1], budget))
    && (forall r: nat :: LastRun(body, r) ==> IsCutRun(tail, body, r, budget, est))
  }

  lemma {:induction false} RunIsCut(run: seq<Item>, tokens: nat)
    ensures AllCut(TruncatedRun(run, tokens), run, tokens)
  {
    hide TruncatedItem, IsCutItem;
    forall item ensures IsCutItem(TruncatedItem(item, tokens), item, tokens) {
      TruncatedIsCut(item, tokens);
    }
  }

  lemma {:induction false} LastRunIs(body: seq<Item>, r: nat)
    requires LastRun(body, r)
    ensures r == |body| - TrailingResults(body)
  {
    hide TrailingResults;
  }

  lemma {:induction false} RecoveredIsCut(body: seq<Item>, budget: nat, est: Estimator)
    ensures IsCutTail(RecoveredTail(body, budget, est), body, budget, est)
    ensures body != [] ==> RecoveredTail(body, budget, est) != []
  {
    hide TruncatedItem, TruncatedRun, IsCutItem, TrailingResults, PerResult, IsCutRun;
    var n := TrailingResults(body);
    forall r: nat | LastRun(body, r) ensures IsCutRun(RecoveredTail(body, budget, est), body, r, budget, est) {
      LastRunIs(body, r);
      RecoveredRun(body, r, budget, est);
    }
    hide LastRun;
    if n == 0 && body != [] {
      assert body[..|body|] == body;
      TruncatedIsCut(body[|body| - 1], budget);
    }
  }

  lemma {:induction false} RecoveredRun(body: seq<Item>, r: nat, budget: nat, est: Estimator)
    requires r < |body| && r == |body| - TrailingResults(body)
    ensures IsCutRun(RecoveredTail(body, budget, est), body, r, budget, est)
  {
    hide TruncatedRun, TrailingResults, PerResult, IsShare, AllCut;
    var owned := OwnedRun(body, r);
    var n, cost := |body| - r, if owned then est(body[r - 1]) else 0;
    var per := PerResult(budget, cost, n);
    ShareIsShare(budget, cost, n);
    RunIsCut(body[r..], per);
    assert EndsWithOwner(body[..r]) <==> owned;
    var cut := TruncatedRun(body[r..], per);
    assert RecoveredTail(body, budget, est) == if owned then [body[r - 1]] + cut else cut;
    hide RecoveredTail;
    assert RecoveredTail(body, budget, est)[if owned then 1 else 0..] == cut;
    assert CutInShares(cut, body[r..], Less(budget, cost));
  }

  // ------------------------------------------------------------------- the result

  /** `s` starts a turn, and the body from there on is within the budget. */
  ghost predicate FitsFrom(body: seq<Item>, s: nat, budget: nat, est: Estimator) {
    s < |body| && !body[s].ToolResult? && Cost(body[s..], est) <= budget
  }

  ghost predicate FirstToFit(body: seq<Item>, s: nat, budget: nat, est: Estimator) {
    FitsFrom(body, s, budget, est) && forall t: nat :: t < s ==> !FitsFrom(body, t, budget, est)
  }

  /** The longest suffix of whole turns within the budget, or else the cut tail, empty only if the body is. */
  ghost predicate IsKept(kept: seq<Item>, body: seq<Item>, budget: nat, est: Estimator) {
    && (forall s: nat :: FirstToFit(body, s, budget, est) ==> kept == body[s..])
    && ((forall s: nat :: !FitsFrom(body, s, budget, est)) ==>
          IsCutTail(kept, body, budget, est) && (body != [] ==> kept != []))
  }

  lemma {:induction false} KeptIsKept(body: seq<Item>, start: nat, kept: seq<Item>, budget: nat, est: Estimator)
    requires LongestFit(body, budget, est, start)
    requires kept == if start < |body| then body[start..] else RecoveredTail(body, budget, est)
    ensures IsKept(kept, body, budget, est)
  {
    RecoveredIsCut(body, budget, est);
    hide Cost, RecoveredTail, IsCutTail;
    forall s: nat ensures FitsFrom(body, s, budget, est) <==> FittingTurnStart(body, budget, est, s) {}
    hide FitsFrom, FittingTurnStart;
  }

  /**
   What fitting returns: a conversation within the budget as it is; otherwise its System
   item and what is kept of the rest within what that leaves.
   */
  lemma {:induction false} FitOutcome(conversation: seq<Item>, maxTokens: nat, est: Estimator, out: seq<Item>)
    requires IsFit(conversation, maxTokens, est, out)
    ensures Cost(conversation, est) <= maxTokens ==> out == conversation
    ensures Cost(conversation, est) > maxTokens ==>
              conversation != [] &&
              if conversation[0].System?
              then out != [] && out[0] == conversation[0]
                   && IsKept(out[1..], conversation[1..], Less(maxTokens, est(conversation[0])), est)
              else IsKept(out, conversation, maxTokens, est)
  {
    if Cost(conversation, est) > maxTokens {
      CostOfNothing(est);
      hide Cost, IsKept, RecoveredTail, LongestFit;
      var head, body := SystemHead(conversation), conversation[|SystemHead(conversation)|..];
      var budget := BodyBudget(conversation, maxTokens, est);
      var start: nat :| LongestFit(body, budget, est, start)
        && out == head + (if start < |body| then body[start..] else RecoveredTail(body, budget, est));
      var kept := if start < |body| then body[start..] else RecoveredTail(body, budget, est);
      KeptIsKept(body, start, kept, budget, est);
      BodyAndBudget(conversation, maxTokens, est);
      assert out == head + kept && out[|head|..] == kept;
    }
  }

  lemma {:induction false} BodyAndBudget(conversation: seq<Item>, maxTokens: nat, est: Estimator)
    requires conversation != []
    ensures var head := SystemHead(conversation);
            && (conversation[0].System? ==>
                  head == [conversation[0]]
                  && BodyBudget(conversation, maxTokens, est) == Less(maxTokens, est(conversation[0])))
            && (!conversation[0].System? ==>
                  head == [] && conversation[|head|..] == conversation
                  && BodyBudget(conversation, maxTokens, est) == maxTokens)
  {
    CostOfOne(conversation[0], est);
    CostOfNothing(est);
  }
}
