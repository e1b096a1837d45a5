/**
 Shrinking a conversation to a token budget (`fit_conversation_to_budget`,
 `recover_truncated_tail_unit`, `truncate_item_to_tokens`,
 `truncate_trailing_incomplete_tool_call`). The per-item token estimator is a
 parameter: nothing here depends on what it computes.
 */
module BudgetFit {
  import opened Common
  import opened Conversation
  import opened ToolPairing
  import opened PairingLaws
  import opened Utf8Truncate

  type Estimator = Item -> nat

  function Cost(items: seq<Item>, est: Estimator): nat {
    if items == [] then 0 else est(items[0]) + Cost(items[1..], est)
  }

  const USIZE_MAX: nat := 0xFFFF_FFFF_FFFF_FFFF

  /** Four bytes to a token, saturating at the width of `usize`. */
  function TokensToBytes(maxTokens: nat): nat {
    if maxTokens * 4 > USIZE_MAX then USIZE_MAX else maxTokens * 4
  }

  function Cut(text: string, maxBytes: nat): string {
    match TruncatedText(text, maxBytes)
    case None => text
    case Some(t) => t
  }

  function CutParts(parts: seq<ContentPart>, maxBytes: nat): seq<ContentPart> {
    seq(|parts|, k requires 0 <= k < |parts| =>
      match parts[k]
      case TextPart(text) => TextPart(Cut(text, maxBytes))
      case ImagePart(_) => parts[k])
  }

  /** Only message text is cut; calls, ids and images are kept. */
  function TruncatedItem(item: Item, maxTokens: nat): Item {
    var maxBytes := TokensToBytes(maxTokens);
    match item
    case ToolResult(id, output, images) => ToolResult(id, Cut(output, maxBytes), images)
    case Assistant(content, calls, model) => Assistant(Cut(content, maxBytes), calls, model)
    case User(user) => User(user.(content := CutParts(user.content, maxBytes)))
    case _ => item
  }

  function TruncatedRun(run: seq<Item>, maxTokens: nat): (r: seq<Item>)
    ensures |r| == |run|
    ensures forall k :: 0 <= k < |r| ==> r[k] == TruncatedItem(run[k], maxTokens)
  {
    seq(|run|, k requires 0 <= k < |run| => TruncatedItem(run[k], maxTokens))
  }

  // ------------------------------------------------------------ what is kept

  /** A suffix of whole turns that fits: it does not start inside a run of results. */
  ghost predicate FittingTurnStart(body: seq<Item>, budget: nat, est: Estimator, s: nat) {
    s < |body| && !body[s].ToolResult? && Cost(body[s..], est) <= budget
  }

  /** `s` starts the longest suffix of whole turns within the budget; it is `|body|` when none fits. */
  ghost predicate LongestFit(body: seq<Item>, budget: nat, est: Estimator, s: nat) {
    && s <= |body|
    && (s < |body| ==> FittingTurnStart(body, budget, est, s))
    && forall t :: 0 <= t < s ==> !FittingTurnStart(body, budget, est, t)
  }

  /** Length of the run of results that ends `items`. */
  function TrailingResults(items: seq<Item>): (n: nat)
    ensures n <= |items| && forall k :: |items| - n <= k < |items| ==> items[k].ToolResult?
    ensures n < |items| ==> !items[|items| - n - 1].ToolResult?
  {
    if items == [] || !items[|items| - 1].ToolResult? then 0 else TrailingResults(items[..|items| - 1]) + 1
  }

  predicate EndsWithOwner(body: seq<Item>) {
    body != [] && body[|body| - 1].Assistant? && body[|body| - 1].toolCalls != []
  }

  /** The last item, or the last run of results with its owner, cut to the budget. */
  function RecoveredTail(all: seq<Item>, budget: nat, est: Estimator): seq<Item> {
    var n := |all| - TrailingResults(all);
    RecoveredUnit(all[..n], all[n..], budget, est)
  }

  function RecoveredUnit(body: seq<Item>, results: seq<Item>, budget: nat, est: Estimator): seq<Item> {
    if results == [] then
      if body == [] then [] else [TruncatedItem(body[|body| - 1], budget)]
    else if EndsWithOwner(body) then
      [body[|body| - 1]] + TruncatedRun(results, PerResult(budget, est(body[|body| - 1]), |results|))
    else TruncatedRun(results, PerResult(budget, 0, |results|))
  }

  function PerResult(budget: nat, ownerCost: nat, n: nat): nat
    requires n > 0
  {
    var share := (if budget >= ownerCost then budget - ownerCost else 0) / n;
    if share < 1 then 1 else share
  }

  function SystemHead(conversation: seq<Item>): (h: seq<Item>)
    ensures h <= conversation && |h| <= 1
  {
    if conversation != [] && conversation[0].System? then conversation[..1] else []
  }

  function BodyBudget(conversation: seq<Item>, maxTokens: nat, est: Estimator): nat {
    var c := Cost(SystemHead(conversation), est);
    if maxTokens >= c then maxTokens - c else 0
  }

  /**
   What fitting returns: the input if it is within the budget, otherwise the System
   item and the longest fitting suffix of whole turns, or the cut-down tail when not
   even the last turn fits.
   */
  ghost predicate IsFit(conversation: seq<Item>, maxTokens: nat, est: Estimator, out: seq<Item>) {
    if Cost(conversation, est) <= maxTokens then out == conversation
    else
      var head := SystemHead(conversation);
      var body := conversation[|head|..];
      var budget := BodyBudget(conversation, maxTokens, est);
      exists start: nat :: LongestFit(body, budget, est, start)
        && out == head + (if start < |body| then body[start..] else RecoveredTail(body, budget, est))
  }

  method FitConversationToBudget(conversation: seq<Item>, maxTokens: nat, est: Estimator) returns (out: seq<Item>)
    ensures IsFit(conversation, maxTokens, est, out)
  {
    if Cost(conversation, est) <= maxTokens {
      return conversation;
    }
    var head: seq<Item> := [];
    var body := conversation;
    if body != [] && body[0].System? {
      head, body := [body[0]], body[1..];
    }
    assert head == SystemHead(conversation) && body == conversation[|head|..];
    var budget := BodyBudget(conversation, maxTokens, est);
    var start := FirstKept(body, budget, est);
    if start < |body| {
      out := head + body[start..];
    } else {
      var unit := RecoverTruncatedTailUnit(body, budget, est);
      out := head + unit;
    }
  }

  /** Counts the budget down from the end, then steps over a run left without its owner. */
  method FirstKept(body: seq<Item>, budget: nat, est: Estimator) returns (start: nat)
    ensures LongestFit(body, budget, est, start)
  {
    hide Cost;
    var remaining: nat := budget;
    start := |body|;
    CostOfNothing(est);
    assert body[start..] == [];
    var i := |body|;
    while i > 0
      invariant start == i <= |body|
      invariant remaining + Cost(body[start..], est) == budget
    {
      CostTail(body, i - 1, est);
      var cost := est(body[i - 1]);
      if cost > remaining {
        break;
      }
      remaining := remaining - cost;
      i := i - 1;
      start := i;
    }
    ghost var fits := start;
    assert Cost(body[fits..], est) <= budget;
    assert fits > 0 ==> Cost(body[fits - 1..], est) > budget;
    while start < |body| && body[start].ToolResult?
      invariant fits <= start <= |body|
      invariant forall t :: fits <= t < start ==> body[t].ToolResult?
    {
      start := start + 1;
    }
    CostMonotone(body, fits, start, est);
    assert start < |body| ==> FittingTurnStart(body, budget, est, start);
    forall t: nat | t < start ensures !FittingTurnStart(body, budget, est, t) {
      if t < fits {
        CostMonotone(body, t, fits - 1, est);
      }
    }
  }

  lemma {:induction false} CostOfNothing(est: Estimator)
    ensures Cost([], est) == 0
  {}

  method RecoverTruncatedTailUnit(all: seq<Item>, budget: nat, est: Estimator) returns (unit: seq<Item>)
    ensures unit == RecoveredTail(all, budget, est)
  {
    hide TruncatedItem, TruncatedRun, PerResult, TrailingResults;
    var body, results := PopTrailingResults(all);
    assert RecoveredTail(all, budget, est) == RecoveredUnit(body, results, budget, est);
    hide RecoveredTail;
    if results == [] {
      return if body == [] then [] else [TruncatedItem(body[|body| - 1], budget)];
    }
    var owner: Option<Item> := None;
    if EndsWithOwner(body) {
      owner := Some(body[|body| - 1]);
    }
    var ownerCost := if owner.Some? then est(owner.value) else 0;
    var per := PerResult(budget, ownerCost, |results|);
    unit := if owner.Some? then [owner.value] else [];
    unit := unit + TruncatedRun(results, per);
    assert [] + TruncatedRun(results, per) == TruncatedRun(results, per);
  }

  method PopTrailingResults(all: seq<Item>) returns (body: seq<Item>, results: seq<Item>)
    ensures var n := |all| - TrailingResults(all); body == all[..n] && results == all[n..]
  {
    hide Reversed, TrailingResults, IsRun;
    body, results := all, [];
    NoneReversed();
    ghost var n: nat := |all|;
    while body != [] && body[|body| - 1].ToolResult?
      invariant n <= |all| && body == all[..n] && Reversed(results) == all[n..]
      invariant n - TrailingResults(body) == |all| - TrailingResults(all)
      decreases |body|
    {
      PopResult(all, n, results);
      results := results + [body[|body| - 1]];
      n := n - 1;
      body := body[..|body| - 1];
    }
    NoTrailing(body);
    results := Reversed(results);
  }

  lemma {:induction false} NoneReversed()
    ensures Reversed([]) == []
  {}

  lemma {:induction false} NoTrailing(body: seq<Item>)
    requires body == [] || !body[|body| - 1].ToolResult?
    ensures TrailingResults(body) == 0
  {}

  lemma {:induction false} PopResult(all: seq<Item>, n: nat, results: seq<Item>)
    requires 0 < n <= |all| && all[n - 1].ToolResult?
    requires Reversed(results) == all[n..]
    ensures Reversed(results + [all[n - 1]]) == all[n - 1..]
    ensures TrailingResults(all[..n]) == TrailingResults(all[..n - 1]) + 1
  {
    assert all[n - 1..] == [all[n - 1]] + all[n..];
    assert (results + [all[n - 1]])[..|results|] == results;
    assert all[..n][..n - 1] == all[..n - 1];
  }

  /** `Vec::reverse`. */
  function Reversed(s: seq<Item>): seq<Item> {
    if s == [] then [] else [s[|s| - 1]] + Reversed(s[..|s| - 1])
  }

  lemma {:induction false} CostTail(body: seq<Item>, i: nat, est: Estimator)
    requires i < |body|
    ensures Cost(body[i..], est) == est(body[i]) + Cost(body[i + 1..], est)
  {
    assert body[i..][1..] == body[i + 1..];
  }

  lemma {:induction false} CostMonotone(body: seq<Item>, t: nat, u: nat, est: Estimator)
    requires t <= u <= |body|
    ensures Cost(body[u..], est) <= Cost(body[t..], est)
    decreases u - t
  {
    if t < u {
      CostTail(body, t, est);
      CostMonotone(body, t + 1, u, est);
    }
  }

  lemma {:induction false} CostConcat(a: seq<Item>, b: seq<Item>, est: Estimator)
    ensures Cost(a + b, est) == Cost(a, est) + Cost(b, est)
  {
    if a == [] {
      assert a + b == b;
    } else {
      assert (a + b)[1..] == a[1..] + b;
      CostConcat(a[1..], b, est);
    }
  }

  method TruncateTrailingIncompleteToolCall(conversation: seq<Item>) returns (out: seq<Item>)
    ensures out <= conversation
    ensures forall k :: |out| <= k < |conversation| ==> conversation[k].Assistant? && conversation[k].toolCalls != []
    ensures out != [] ==> !(out[|out| - 1].Assistant? && out[|out| - 1].toolCalls != [])
  {
    out := conversation;
    while out != [] && out[|out| - 1].Assistant? && out[|out| - 1].toolCalls != []
      invariant out <= conversation
      invariant forall k :: |out| <= k < |conversation| ==>
                conversation[k].Assistant? && conversation[k].toolCalls != []
    {
      out := out[..|out| - 1];
    }
  }

  // ------------------------------------------------------------- what fitting keeps

  lemma {:induction false} FitIsUnique(conversation: seq<Item>, maxTokens: nat, est: Estimator, out: seq<Item>,
                                       out': seq<Item>)
    requires IsFit(conversation, maxTokens, est, out) && IsFit(conversation, maxTokens, est, out')
    ensures out == out'
  {
    if Cost(conversation, est) > maxTokens {
      var body := conversation[|SystemHead(conversation)|..];
      var budget := BodyBudget(conversation, maxTokens, est);
      forall s: nat, s': nat | LongestFit(body, budget, est, s) && LongestFit(body, budget, est, s') ensures s == s' {
        hide FittingTurnStart;
      }
    }
  }

  /** Fitting never separates a result from its call: all three branches keep the strict rule. */
  lemma {:induction false} FitKeepsRule(conversation: seq<Item>, maxTokens: nat, est: Estimator, out: seq<Item>)
    requires AllOwned(conversation) && IsFit(conversation, maxTokens, est, out)
    ensures AllOwned(out)
  {
    hide AllOwned, Cost, RecoveredTail, BodyBudget;
    if Cost(conversation, est) > maxTokens {
      var head := SystemHead(conversation);
      var body := conversation[|head|..];
      var budget := BodyBudget(conversation, maxTokens, est);
      var start: nat :| LongestFit(body, budget, est, start)
        && out == head + (if start < |body| then body[start..] else RecoveredTail(body, budget, est));
      assert conversation == head + body;
      HeadThenBody(head, body);
      if start < |body| {
        SuffixKeepsRule(body, start);
        HeadThenBody(head, body[start..]);
      } else {
        RecoveredKeepsRule(body, budget, est);
        HeadThenBody(head, RecoveredTail(body, budget, est));
      }
    }
  }

  lemma {:induction false} SuffixKeepsRule(body: seq<Item>, start: nat)
    requires AllOwned(body) && start < |body| && !body[start].ToolResult?
    ensures AllOwned(body[start..])
  {
    hide AllOwned;
    var before, rest := body[..start], body[start..];
    assert body == before + rest && rest[0] == body[start];
    RuleConcat(before, rest);
  }

  lemma {:induction false} HeadThenBody(head: seq<Item>, body: seq<Item>)
    requires head == [] || (|head| == 1 && head[0].System?)
    ensures AllOwned(head + body) <==> AllOwned(body)
  {
    if head == [] {
      assert head + body == body;
    } else if CleanStart(body) {
      RuleConcat(head, body);
    } else {
      var s := head + body;
      assert Head(s, 0) == 0 && Head(s, 1) == 0 && s[1] == body[0];
      assert !Owned(s, 1) && !Owned(body, 0);
    }
  }

  lemma {:induction false} RecoveredKeepsRule(body: seq<Item>, budget: nat, est: Estimator)
    requires AllOwned(body)
    ensures AllOwned(RecoveredTail(body, budget, est))
  {
    hide TruncatedItem, TruncatedRun, TrailingResults, PerResult, AllOwned;
    var n := TrailingResults(body);
    if n > 0 {
      TrailingRunOwned(body, n);
      var owner, run := body[|body| - n - 1], body[|body| - n..];
      var rest := body[..|body| - n];
      assert rest[|rest| - 1] == owner;
      CutRunKeepsOwner(owner, run, PerResult(budget, est(owner), n));
    } else if body == [] {
      NothingOwned();
    } else {
      TruncatedKind(body[|body| - 1], budget);
      OneOwned(TruncatedItem(body[|body| - 1], budget));
    }
  }

  lemma {:induction false} NothingOwned()
    ensures AllOwned([])
  {}

  lemma {:induction false} OneOwned(item: Item)
    requires !item.ToolResult?
    ensures AllOwned([item])
  {}

  /** A trailing run of owned results has its owner before it. */
  lemma {:induction false} TrailingRunOwned(body: seq<Item>, n: nat)
    requires AllOwned(body) && n == TrailingResults(body) && n > 0
    ensures n < |body|
    ensures var owner, run := body[|body| - n - 1], body[|body| - n..];
            && owner.Assistant? && owner.toolCalls != []
            && forall k :: 0 <= k < |run| ==> run[k].ToolResult? && owner.DeclaresCall(run[k].toolCallId)
  {
    hide TrailingResults, Head;
    TrailingRunHead(body, n);
    assert Owned(body, |body| - 1) && n < |body|;
    var owner, run := body[|body| - n - 1], body[|body| - n..];
    forall k: nat | k < n ensures run[k].ToolResult? && owner.DeclaresCall(run[k].toolCallId) {
      assert run[k] == body[|body| - n + k] && Owned(body, |body| - n + k);
    }
    assert owner.DeclaresCall(run[n - 1].toolCallId);
  }

  /** Truncation changes no item's kind and no result's id. */
  lemma {:induction false} TruncatedKind(item: Item, maxTokens: nat)
    ensures item.ToolResult? <==> TruncatedItem(item, maxTokens).ToolResult?
    ensures item.ToolResult? ==> TruncatedItem(item, maxTokens).toolCallId == item.toolCallId
  {}

  lemma {:induction false} CutRunKeepsOwner(owner: Item, run: seq<Item>, maxTokens: nat)
    requires !owner.ToolResult?
    requires forall k :: 0 <= k < |run| ==> run[k].ToolResult? && owner.DeclaresCall(run[k].toolCallId)
    ensures AllOwned([owner] + TruncatedRun(run, maxTokens))
  {
    var cut := TruncatedRun(run, maxTokens);
    forall k | 0 <= k < |cut| ensures cut[k].ToolResult? && cut[k].toolCallId == run[k].toolCallId {
      TruncatedKind(run[k], maxTokens);
    }
    hide TruncatedRun;
    BlockRule(owner, cut);
  }

  /** All of a trailing run of owned results has the item before it as its head. */
  lemma {:induction false} TrailingRunHead(body: seq<Item>, n: nat)
    requires n == TrailingResults(body) && n > 0
    ensures forall j: nat :: |body| - n <= j < |body| ==> Head(body, j) == |body| - n - 1
  {
    hide TrailingResults, Head;
    var run, first := body[|body| - n..], |body| - n;
    forall j: nat | first <= j < |body| ensures body[j].ToolResult? {
      assert body[j] == run[j - first];
    }
    forall j: nat | first <= j < |body| ensures Head(body, j) == first - 1 {
      HeadAfter(body, first, j);
    }
  }

  lemma {:induction false} HeadAfter(body: seq<Item>, first: nat, j: nat)
    requires first <= j < |body| && (first > 0 ==> !body[first - 1].ToolResult?)
    requires forall k :: first <= k <= j ==> body[k].ToolResult?
    ensures Head(body, j) == first - 1
  {
    if j > first {
      HeadAfter(body, first, j - 1);
    }
  }

  /**
   When whole turns survive, they are the longest suffix of whole turns that fits, the
   result is within the budget whenever the System item is, and fitting again changes
   nothing, whether or not the System item fits.
   */
  lemma {:induction false} SuffixBranch(conversation: seq<Item>, maxTokens: nat, est: Estimator, start: nat,
                                        out: seq<Item>)
    requires Cost(conversation, est) > maxTokens
    requires var body := conversation[|SystemHead(conversation)|..];
             LongestFit(body, BodyBudget(conversation, maxTokens, est), est, start) && start < |body|
             && out == SystemHead(conversation) + body[start..]
    ensures Cost(SystemHead(conversation), est) <= maxTokens ==> Cost(out, est) <= maxTokens
    ensures IsFit(out, maxTokens, est, out)
  {
    var head := SystemHead(conversation);
    var body := conversation[|head|..];
    var tail := body[start..];
    CostConcat(head, tail, est);
    if Cost(out, est) > maxTokens {
      assert head != [];
      FittedHead(head, tail, out);
      assert out[|head|..] == tail;
      assert tail[0..] == tail;
      assert FittingTurnStart(tail, BodyBudget(out, maxTokens, est), est, 0);
      assert LongestFit(tail, BodyBudget(out, maxTokens, est), est, 0);
    }
  }

  lemma {:induction false} FittedHead(head: seq<Item>, tail: seq<Item>, out: seq<Item>)
    requires |head| == 1 && head[0].System? && out == head + tail
    ensures SystemHead(out) == head
  {}

  // ------------------------------------------------ the budget of a cut-down tail

  /** The owner that a recovered tail keeps whole, and its items that are cut. */
  function KeptOwner(all: seq<Item>): seq<Item> {
    var body := all[..|all| - TrailingResults(all)];
    if body != all && EndsWithOwner(body) then [body[|body| - 1]] else []
  }

  function CutItems(all: seq<Item>, budget: nat, est: Estimator): (r: seq<Item>)
    ensures |r| <= |RecoveredTail(all, budget, est)|
  {
    RecoveredTail(all, budget, est)[|KeptOwner(all)|..]
  }

  lemma {:induction false} TailIsOwnerAndCut(all: seq<Item>, budget: nat, est: Estimator)
    ensures RecoveredTail(all, budget, est) == KeptOwner(all) + CutItems(all, budget, est)
    ensures KeptOwner(all) != [] ==>
              |CutItems(all, budget, est)| == TrailingResults(all) > 0
              && forall k :: 0 <= k < TrailingResults(all) ==>
                   CutItems(all, budget, est)[k]
                   == TruncatedItem(all[|all| - TrailingResults(all) + k],
                                    PerResult(budget, est(KeptOwner(all)[0]), TrailingResults(all)))
  {
    hide TruncatedItem, PerResult, TrailingResults;
    var n := TrailingResults(all);
    assert all[..|all| - n] != all <==> n > 0;
  }

  /**
   When no turn fits, the result is within the budget exactly when the owner of the last
   run, which is kept whole, and its cut results are within what the System item leaves.
   In particular it is over the budget whenever that owner alone is.
   */
  lemma {:induction false} TailBranchWithinIff(conversation: seq<Item>, maxTokens: nat, est: Estimator, out: seq<Item>)
    requires Cost(SystemHead(conversation), est) <= maxTokens
    requires var body := conversation[|SystemHead(conversation)|..];
             out == SystemHead(conversation) + RecoveredTail(body, BodyBudget(conversation, maxTokens, est), est)
    ensures var body, budget := conversation[|SystemHead(conversation)|..], BodyBudget(conversation, maxTokens, est);
            && (Cost(out, est) <= maxTokens <==>
                Cost(KeptOwner(body), est) + Cost(CutItems(body, budget, est), est) <= budget)
            && (Cost(KeptOwner(body), est) > budget ==> Cost(out, est) > maxTokens)
  {
    hide RecoveredTail, KeptOwner, CutItems;
    var head := SystemHead(conversation);
    var body, budget := conversation[|head|..], BodyBudget(conversation, maxTokens, est);
    TailIsOwnerAndCut(body, budget, est);
    CostConcat(KeptOwner(body), CutItems(body, budget, est), est);
    CostConcat(head, RecoveredTail(body, budget, est), est);
  }

  /** It is within the budget when the owner leaves a token for each result and every cut result keeps to its share. */
  lemma {:induction false} TailFitsItsShares(all: seq<Item>, budget: nat, est: Estimator)
    requires KeptOwner(all) != [] && est(KeptOwner(all)[0]) + TrailingResults(all) <= budget
    requires forall k :: 0 <= k < |CutItems(all, budget, est)| ==>
               est(CutItems(all, budget, est)[k]) <= PerResult(budget, est(KeptOwner(all)[0]), TrailingResults(all))
    ensures Cost(KeptOwner(all), est) + Cost(CutItems(all, budget, est), est) <= budget
  {
    hide RecoveredTail, KeptOwner, CutItems, TrailingResults;
    var owner, cut, n := KeptOwner(all)[0], CutItems(all, budget, est), TrailingResults(all);
    TailIsOwnerAndCut(all, budget, est);
    OneKeptOwner(all);
    var per := PerResult(budget, est(owner), n);
    CostAtMost(cut, est, per);
    CostOfOne(owner, est);
    ShareOfAll(budget - est(owner), n);
  }

  lemma {:induction false} OneKeptOwner(all: seq<Item>)
    requires KeptOwner(all) != []
    ensures KeptOwner(all) == [KeptOwner(all)[0]]
  {}

  lemma {:induction false} CostOfOne(item: Item, est: Estimator)
    ensures Cost([item], est) == est(item)
  {
    assert [item] + [] == [item];
  }

  lemma {:induction false} CostAtMost(items: seq<Item>, est: Estimator, most: nat)
    requires forall k :: 0 <= k < |items| ==> est(items[k]) <= most
    ensures Cost(items, est) <= |items| * most
  {
    if items != [] {
      CostAtMost(items[1..], est, most);
      CostTail(items, 0, est);
      assert items[0..] == items;
      assert |items| * most == most + (|items| - 1) * most;
    }
  }

  lemma {:induction false} ShareOfAll(left: nat, n: nat)
    requires 0 < n <= left
    ensures n * (left / n) <= left && left / n >= 1
  {}

  /** The input that overruns: one call whose assistant alone is over the budget, and its result. */
  lemma {:induction false} OwnerOverruns(owner: Item, result: Item, maxTokens: nat, est: Estimator, out: seq<Item>)
    requires owner.Assistant? && owner.toolCalls != [] && result.ToolResult?
    requires est(owner) > maxTokens && IsFit([owner, result], maxTokens, est, out)
    ensures Cost(out, est) > maxTokens
  {
    var conversation, n := [owner, result], TrailingResults([owner, result]);
    assert conversation[..1] == [owner] && conversation[1..] == [result];
    assert conversation[..0] + conversation == conversation;
    assert n == 1 && EndsWithOwner([owner]);
  }
}
