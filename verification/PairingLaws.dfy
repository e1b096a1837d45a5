/** What `repair_history` achieves on every history, and when running it again is a no-op. */
module PairingLaws {
  import opened Common
  import opened Conversation
  import opened ToolPairing

  // -------------------------------------------- the rule, across a clean split

  lemma {:induction false} HeadConcat(p: seq<Item>, rest: seq<Item>, j: nat)
    requires CleanStart(rest) && j < |p| + |rest|
    ensures Head(p + rest, j) == if j < |p| then Head(p, j) else Head(rest, j - |p|) + |p|
    ensures |p| <= j ==> 0 <= Head(rest, j - |p|)
  {
    var s := p + rest;
    assert s[j] == if j < |p| then p[j] else rest[j - |p|];
    if s[j].ToolResult? && j > 0 {
      HeadConcat(p, rest, j - 1);
    }
  }

  lemma {:induction false} AnswersConcat(p: seq<Item>, rest: seq<Item>, i: nat, id: string, j: nat)
    requires CleanStart(rest)
    ensures i < |p| ==> (Answers(p + rest, i, id, j) <==> Answers(p, i, id, j))
    ensures i >= |p| ==> (Answers(p + rest, i, id, j) <==> |p| <= j && Answers(rest, i - |p|, id, j - |p|))
  {
    if j < |p| + |rest| {
      HeadConcat(p, rest, j);
      assert (p + rest)[j] == if j < |p| then p[j] else rest[j - |p|];
    }
  }

  lemma {:induction false} AnsweredConcat(p: seq<Item>, rest: seq<Item>, i: nat, id: string)
    requires CleanStart(rest)
    ensures Answered(p + rest, i, id) <==> if i < |p| then Answered(p, i, id) else Answered(rest, i - |p|, id)
    ensures AnsweredOnce(p + rest, i, id) <==>
            if i < |p| then AnsweredOnce(p, i, id) else AnsweredOnce(rest, i - |p|, id)
  {
    hide Answers, Head, CleanStart;
    var s := p + rest;
    if i < |p| {
      forall j: nat ensures Answers(s, i, id, j) <==> Answers(p, i, id, j) {
        AnswersConcat(p, rest, i, id, j);
      }
    } else {
      var i' := i - |p|;
      forall j: nat ensures Answers(s, i, id, j) ==> |p| <= j && Answers(rest, i', id, j - |p|) {
        AnswersConcat(p, rest, i, id, j);
      }
      forall j: nat, k: nat | j == k + |p| ensures Answers(rest, i', id, k) ==> Answers(s, i, id, j) {
        AnswersConcat(p, rest, i, id, j);
      }
      AnswersShift(rest, i', s, i, id, |p|);
    }
  }

  lemma {:induction false} AnswersShift(a: seq<Item>, i: nat, b: seq<Item>, i': nat, id: string, n: nat)
    requires forall j: nat :: Answers(b, i', id, j) ==> n <= j && Answers(a, i, id, j - n)
    requires forall j: nat, k: nat :: j == k + n ==> Answers(a, i, id, k) ==> Answers(b, i', id, j)
    ensures Answered(b, i', id) <==> Answered(a, i, id)
    ensures AnsweredOnce(b, i', id) <==> AnsweredOnce(a, i, id)
  {
    hide Answers;
    if Answered(a, i, id) {
      var k: nat :| Answers(a, i, id, k);
      assert Answers(b, i', id, k + n);
    }
    if AnsweredOnce(a, i, id) {
      var k: nat :| Answers(a, i, id, k) && forall k' :: Answers(a, i, id, k') ==> k' == k;
      assert Answers(b, i', id, k + n);
    }
    if AnsweredOnce(b, i', id) {
      var j: nat :| Answers(b, i', id, j) && forall j' :: Answers(b, i', id, j') ==> j' == j;
      forall k: nat | Answers(a, i, id, k) ensures k == j - n {
        assert Answers(b, i', id, k + n);
      }
    }
  }

  lemma {:induction false} ItemConcat(p: seq<Item>, rest: seq<Item>, i: nat)
    requires CleanStart(rest) && i < |p| + |rest|
    ensures Owned(p + rest, i) <==> if i < |p| then Owned(p, i) else Owned(rest, i - |p|)
    ensures CallsAnsweredOnce(p + rest, i) <==>
            if i < |p| then CallsAnsweredOnce(p, i) else CallsAnsweredOnce(rest, i - |p|)
    ensures RepeatsOnlyAnswered(p + rest, i) <==>
            if i < |p| then RepeatsOnlyAnswered(p, i) else RepeatsOnlyAnswered(rest, i - |p|)
  {
    hide Answered, AnsweredOnce, CleanStart;
    var s := p + rest;
    HeadConcat(p, rest, i);
    assert forall k :: 0 <= k < |p| ==> s[k] == p[k];
    assert forall k :: 0 <= k < |rest| ==> s[|p| + k] == rest[k];
    forall id
      ensures Answered(s, i, id) <==> if i < |p| then Answered(p, i, id) else Answered(rest, i - |p|, id)
      ensures AnsweredOnce(s, i, id) <==> if i < |p| then AnsweredOnce(p, i, id) else AnsweredOnce(rest, i - |p|, id)
    {
      AnsweredConcat(p, rest, i, id);
    }
  }

  /** The rule holds of a history split before a non-result item iff it holds of both parts. */
  lemma {:induction false} RuleConcat(p: seq<Item>, rest: seq<Item>)
    requires CleanStart(rest)
    ensures AllOwned(p + rest) <==> AllOwned(p) && AllOwned(rest)
    ensures AllAnsweredOnce(p + rest) <==> AllAnsweredOnce(p) && AllAnsweredOnce(rest)
    ensures NoUnansweredRepeat(p + rest) <==> NoUnansweredRepeat(p) && NoUnansweredRepeat(rest)
    ensures DistinctIdsInEachAssistant(p + rest) <==> DistinctIdsInEachAssistant(p) && DistinctIdsInEachAssistant(rest)
  {
    hide Owned, CallsAnsweredOnce, RepeatsOnlyAnswered, DistinctCalls, CleanStart, Head;
    var s := p + rest;
    assert forall k :: 0 <= k < |p| ==> s[k] == p[k];
    assert forall k :: 0 <= k < |rest| ==> rest[k] == s[|p| + k];
    forall i: nat | i < |p|
      ensures Owned(s, i) <==> Owned(p, i)
      ensures CallsAnsweredOnce(s, i) <==> CallsAnsweredOnce(p, i)
      ensures RepeatsOnlyAnswered(s, i) <==> RepeatsOnlyAnswered(p, i)
    {
      ItemConcat(p, rest, i);
    }
    forall k: nat | k < |rest|
      ensures Owned(rest, k) <==> Owned(s, |p| + k)
      ensures CallsAnsweredOnce(rest, k) <==> CallsAnsweredOnce(s, |p| + k)
      ensures RepeatsOnlyAnswered(rest, k) <==> RepeatsOnlyAnswered(s, |p| + k)
    {
      ItemConcat(p, rest, |p| + k);
    }
    assert forall i: nat :: |p| <= i < |s| ==>
      && (Owned(s, i) <==> Owned(rest, i - |p|))
      && (CallsAnsweredOnce(s, i) <==> CallsAnsweredOnce(rest, i - |p|))
      && (RepeatsOnlyAnswered(s, i) <==> RepeatsOnlyAnswered(rest, i - |p|)) by {
      forall i: nat | |p| <= i < |s|
        ensures Owned(s, i) <==> Owned(rest, i - |p|)
        ensures CallsAnsweredOnce(s, i) <==> CallsAnsweredOnce(rest, i - |p|)
        ensures RepeatsOnlyAnswered(s, i) <==> RepeatsOnlyAnswered(rest, i - |p|)
      {
        ItemConcat(p, rest, i);
      }
    }
    assert forall i: nat :: |p| <= i < |s| ==> s[i] == rest[i - |p|];
  }

  // ------------------------------------------------------------- inside a block

  lemma {:induction false} HeadInBlock(h: Item, run: seq<Item>, j: nat)
    requires !h.ToolResult? && IsRun(run) && j <= |run|
    ensures Head([h] + run, j) == 0
  {
    var s := [h] + run;
    assert j > 0 ==> s[j] == run[j - 1];
    if j > 0 {
      HeadInBlock(h, run, j - 1);
    }
  }

  lemma {:induction false} BlockAnswers(h: Item, run: seq<Item>, id: string)
    requires !h.ToolResult? && IsRun(run)
    ensures Answered([h] + run, 0, id) <==> HasId(run, id)
    ensures DistinctIds(run) && HasId(run, id) ==> AnsweredOnce([h] + run, 0, id)
  {
    var s := [h] + run;
    forall j: nat ensures Answers(s, 0, id, j) <==> 1 <= j <= |run| && run[j - 1].toolCallId == id {
      if j <= |run| {
        HeadInBlock(h, run, j);
        assert j > 0 ==> s[j] == run[j - 1];
      }
    }
    hide Answers;
    if HasId(run, id) {
      var k :| 0 <= k < |run| && run[k].toolCallId == id;
      assert Answers(s, 0, id, k + 1);
    }
  }

  /** A head followed by a run of results keeps the rule iff the run fits the head. */
  lemma {:induction false} BlockRule(h: Item, run: seq<Item>)
    requires !h.ToolResult? && IsRun(run)
    ensures (forall id :: HasId(run, id) ==> h.DeclaresCall(id)) ==> AllOwned([h] + run)
    ensures DistinctIds(run) && (h.Assistant? ==> forall id :: CallsId(h.toolCalls, id) ==> HasId(run, id))
            ==> AllAnsweredOnce([h] + run)
    ensures NoUnansweredRepeat([h] + run) <==> (h.Assistant? ==> RepeatsAnswered(h.toolCalls, run))
    ensures DistinctIdsInEachAssistant([h] + run) <==> (h.Assistant? ==> DistinctCalls(h.toolCalls))
  {
    var s := [h] + run;
    assert s[0] == h && forall k :: 0 < k < |s| ==> s[k] == run[k - 1];
    forall j: nat | j <= |run| ensures Head(s, j) == 0 {
      HeadInBlock(h, run, j);
    }
    forall id
      ensures Answered(s, 0, id) <==> HasId(run, id)
      ensures DistinctIds(run) && HasId(run, id) ==> AnsweredOnce(s, 0, id)
    {
      BlockAnswers(h, run, id);
    }
    hide Answered, AnsweredOnce, DistinctIds, IsRun;
    assert forall k :: 0 <= k < |run| ==> HasId(run, run[k].toolCallId);
    assert h.Assistant? ==> forall k :: 0 <= k < |h.toolCalls| ==> CallsId(h.toolCalls, h.toolCalls[k].id);
    assert CallsAnsweredOnce(s, 0) ==> AllAnsweredOnce(s);
    assert NoUnansweredRepeat(s) <==> RepeatsOnlyAnswered(s, 0);
  }

  /** The run that repair leaves behind `h` answers its calls, and nothing else. */
  lemma {:induction false} RepairedRunLaws(h: Item, run: seq<Item>)
    requires IsRun(run)
    ensures forall id :: HasId(RepairedRun(h, run), id) <==> h.DeclaresCall(id)
    ensures DistinctIds(RepairedRun(h, run)) <==> (h.Assistant? ==> RepeatsAnswered(h.toolCalls, run))
  {
    hide HasId, CallsId, DistinctIds, RepeatsAnswered, KeepLast, KeepOwned, Missing;
    var ids, once := HeadIds(h), KeepLast(run);
    var kept := KeepOwned(once, ids);
    KeepLastLaws(run);
    KeepOwnedLaws(once, ids);
    DeclaredIds(h);
    if h.Assistant? {
      var missing := Missing(h.toolCalls, kept);
      MissingLaws(h.toolCalls, kept);
      SameAnswered(h.toolCalls, kept, run);
      DistinctConcat(kept, missing);
      forall id ensures HasId(kept + missing, id) <==> HasId(kept, id) || HasId(missing, id) {
        HasIdConcat(kept, missing, id);
      }
    } else {
      KeepOwnedNone(once, ids);
      NoIds();
      assert RepairedRun(h, run) == [] + [];
    }
  }

  lemma {:induction false} NoIds()
    ensures DistinctIds([]) && forall id :: !HasId([], id)
  {}

  lemma {:induction false} DeclaredIds(h: Item)
    ensures forall id :: id in HeadIds(h) <==> h.DeclaresCall(id)
    ensures h.Assistant? ==> forall id :: CallsId(h.toolCalls, id) <==> id in HeadIds(h)
  {}

  lemma {:induction false} SameAnswered(calls: seq<ToolCall>, kept: seq<Item>, run: seq<Item>)
    requires forall id :: CallsId(calls, id) ==> (HasId(kept, id) <==> HasId(run, id))
    ensures RepeatsAnswered(calls, kept) <==> RepeatsAnswered(calls, run)
  {
    assert forall k :: 0 <= k < |calls| ==> CallsId(calls, calls[k].id);
  }

  /** One answer per call forces the run's ids apart, when the run holds answers only. */
  lemma {:induction false} AnsweredOnceIsDistinct(h: Item, run: seq<Item>)
    requires !h.ToolResult? && IsRun(run)
    requires forall id :: HasId(run, id) ==> h.DeclaresCall(id)
    requires AllAnsweredOnce([h] + run)
    ensures DistinctIds(run)
  {
    var s := [h] + run;
    assert s[0] == h && forall k :: 0 < k < |s| ==> s[k] == run[k - 1];
    forall a, b | 0 <= a < b < |run| ensures run[a].toolCallId != run[b].toolCallId {
      var id := run[a].toolCallId;
      assert HasId(run, id);
      var k :| 0 <= k < |h.toolCalls| && h.toolCalls[k].id == id;
      assert CallsAnsweredOnce(s, 0);
      assert AnsweredOnce(s, 0, s[0].toolCalls[k].id);
      HeadInBlock(h, run, a + 1);
      HeadInBlock(h, run, b + 1);
      assert Answers(s, 0, id, a + 1);
      assert run[b].toolCallId == id ==> Answers(s, 0, id, b + 1);
    }
  }

  // ------------------------------------------------------------- main theorems

  lemma {:induction false} NonResultsConcat(a: seq<Item>, b: seq<Item>)
    ensures NonResults(a + b) == NonResults(a) + NonResults(b)
  {
    if a == [] {
      assert a + b == b;
    } else {
      assert (a + b)[1..] == a[1..] + b;
      NonResultsConcat(a[1..], b);
    }
  }

  lemma {:induction false} NonResultsOfRun(run: seq<Item>)
    requires IsRun(run)
    ensures NonResults(run) == []
  {
    if run != [] {
      NonResultsOfRun(run[1..]);
    }
  }

  lemma {:induction false} NonResultsOfBlock(h: Item, run: seq<Item>)
    requires !h.ToolResult? && IsRun(run)
    ensures NonResults([h] + run) == [h]
  {
    assert ([h] + run)[1..] == run;
    NonResultsOfRun(run);
  }

  /** Stray results at the front are under no assistant, so they bear on no rule about calls. */
  lemma {:induction false} LeadRule(lead: seq<Item>)
    requires IsRun(lead)
    ensures NoUnansweredRepeat(lead) && NonResults(lead) == []
  {
    NonResultsOfRun(lead);
  }

  /**
   After repair every result answers a call of the assistant heading its run; every
   call has exactly one answer, exactly when no assistant repeats an id that its run
   leaves unanswered; and the items that are not results are untouched, in order.
   */
  lemma {:induction false} RepairRestoresRule(items: seq<Item>)
    ensures AllOwned(Repaired(items))
    ensures AllAnsweredOnce(Repaired(items)) <==> NoUnansweredRepeat(items)
    ensures NonResults(Repaired(items)) == NonResults(items)
    decreases |items|
  {
    var lead, run, rest := Decompose(items);
    LeadRule(lead);
    if |lead| >= |items| {
      assert lead + [] == lead;
      RepairedLead(lead, []);
    } else {
      var h := items[|lead|];
      var rr := RepairedRun(h, run);
      RepairRestoresRule(rest);
      RepairedSplit(items, lead, h, run, rest);
      RepairedRunLaws(h, run);
      BlockRule(h, rr);
      BlockRule(h, run);
      if AllAnsweredOnce([h] + rr) {
        AnsweredOnceIsDistinct(h, rr);
      }
      PassesKeepCleanStart(rest);
      hide Repaired, NonResults, HasId, CleanStart;
      RuleConcat([h] + rr, Repaired(rest));
      RuleConcat([h] + run, rest);
      RuleConcat(lead, [h] + run + rest);
      NonResultsConcat([h] + rr, Repaired(rest));
      NonResultsConcat([h] + run, rest);
      NonResultsConcat(lead, [h] + run + rest);
      NonResultsOfBlock(h, run);
      NonResultsOfBlock(h, rr);
    }
  }

  lemma {:induction false} RepairedSplit(items: seq<Item>, lead: seq<Item>, h: Item, run: seq<Item>, rest: seq<Item>)
    requires IsRun(lead) && !h.ToolResult? && IsRun(run) && CleanStart(rest)
    requires items == lead + ([h] + run + rest)
    ensures Repaired(items) == [h] + RepairedRun(h, run) + Repaired(rest)
  {
    RepairedLead(lead, [h] + run + rest);
    RepairedBlock(h, run, rest);
  }

  /**
   A second repair finds nothing to strip and nothing to backfill, and it finds a
   duplicate exactly when an assistant repeated an unanswered id.
   */
  lemma {:induction false} RepairedIsStable(items: seq<Item>)
    ensures Undisplaced(Repaired(items), {}) == Repaired(items) && Backfilled(Repaired(items)) == Repaired(items)
    ensures NoUnansweredRepeat(items) ==> Deduped(Repaired(items)) == Repaired(items)
    ensures !NoUnansweredRepeat(items) ==> |Deduped(Repaired(items))| < |Repaired(items)|
    decreases |items|
  {
    hide Repaired, Deduped, Undisplaced, Backfilled, RepairedRun, RepeatsAnswered, NoUnansweredRepeat, HasId,
         DistinctIds, IsRun;
    var lead, run, rest := Decompose(items);
    LeadRule(lead);
    if |lead| >= |items| {
      assert lead + [] == lead;
      NothingStable();
      RepairedLead(lead, []);
    } else {
      var h := items[|lead|];
      RepairedIsStable(rest);
      RepairedSplit(items, lead, h, run, rest);
      RepairedRunLaws(h, run);
      BlockRule(h, run);
      RuleConcat([h] + run, rest);
      RuleConcat(lead, [h] + run + rest);
      PassesKeepCleanStart(rest);
      StableBlock(h, RepairedRun(h, run), Repaired(rest));
    }
  }

  lemma {:induction false} NothingStable()
    ensures Repaired([]) == [] && Undisplaced([], {}) == [] && Backfilled([]) == [] && Deduped([]) == []
    ensures CleanStart([])
  {}

  /** A block whose run answers its head's calls and nothing else: only duplicates are left to find. */
  lemma {:induction false} StableBlock(h: Item, run: seq<Item>, tail: seq<Item>)
    requires !h.ToolResult? && IsRun(run) && CleanStart(tail)
    requires forall id :: HasId(run, id) <==> h.DeclaresCall(id)
    ensures Undisplaced([h] + run + tail, {}) == [h] + run + Undisplaced(tail, {})
    ensures Backfilled([h] + run + tail) == [h] + run + Backfilled(tail)
    ensures DistinctIds(run) ==> Deduped([h] + run + tail) == [h] + run + Deduped(tail)
    ensures !DistinctIds(run) ==> |Deduped([h] + run + tail)| < 1 + |run| + |Deduped(tail)|
  {
    hide Deduped, Undisplaced, Backfilled, KeepLast, KeepOwned, Backfill, CleanStart;
    KeepLastLaws(run);
    KeepOwnedAll(h, run);
    BackfillNothing(h, run);
    DedupedBlock(h, run, tail);
    UndisplacedBlock(h, run, tail, {});
    BackfilledBlock(h, run, tail);
    if !(h.Assistant? && h.toolCalls != []) {
      NoCallsNoResults(h, run);
    }
    assert run + [] == run;
    hide HasId, IsRun;
  }

  lemma {:induction false} KeepOwnedAll(h: Item, run: seq<Item>)
    requires IsRun(run) && forall id :: HasId(run, id) ==> h.DeclaresCall(id)
    ensures KeepOwned(run, HeadIds(h)) == run
  {
    KeepOwnedLaws(run, HeadIds(h));
    assert forall k :: 0 <= k < |run| ==> HasId(run, run[k].toolCallId);
  }

  lemma {:induction false} BackfillNothing(h: Item, run: seq<Item>)
    requires IsRun(run) && forall id :: h.DeclaresCall(id) ==> HasId(run, id)
    ensures Backfill(h, run) == []
  {
    if h.Assistant? && Backfill(h, run) != [] {
      MissingLaws(h.toolCalls, run);
      var id := Backfill(h, run)[0].toolCallId;
      assert HasId(Backfill(h, run), id);
      assert h.DeclaresCall(id);
    }
  }

  lemma {:induction false} NoCallsNoResults(h: Item, run: seq<Item>)
    requires IsRun(run) && !(h.Assistant? && h.toolCalls != [])
    requires forall id :: HasId(run, id) ==> h.DeclaresCall(id)
    ensures run == []
  {
    if run != [] {
      assert HasId(run, run[0].toolCallId);
    }
  }

  /**
   Repair is documented as idempotent. It is exactly when no assistant repeats an id
   that its run leaves unanswered: each copy is backfilled, and the next repair takes
   the first of the two synthetic results for a duplicate.
   */
  lemma {:induction false} RepairIdempotentIff(items: seq<Item>)
    ensures !RepairReport(Repaired(items)).Changed() <==> NoUnansweredRepeat(items)
    ensures NoUnansweredRepeat(items) ==> Repaired(Repaired(items)) == Repaired(items)
  {
    var r := Repaired(items);
    assert Repaired(r) == Backfilled(Undisplaced(Deduped(r), {}));
    RepairedIsStable(items);
    hide Repaired, Deduped, Undisplaced, Backfilled, NoUnansweredRepeat;
    assert RepairReport(r).duplicatesRemoved == |r| - |Deduped(r)|;
    assert NoUnansweredRepeat(items) ==> Deduped(r) == r;
  }

  /** Whatever the history, the third repair is a no-op. */
  lemma {:induction false} ThirdRepairUnchanged(items: seq<Item>)
    ensures !RepairReport(Repaired(Repaired(items))).Changed()
  {
    RepairedRepeatsAnswered(items);
    RepairIdempotentIff(Repaired(items));
  }

  lemma {:induction false} RepairedRepeatsAnswered(items: seq<Item>)
    ensures NoUnansweredRepeat(Repaired(items))
    decreases |items|
  {
    var lead, run, rest := Decompose(items);
    if |lead| >= |items| {
      assert lead + [] == lead;
      RepairedLead(lead, []);
    } else {
      var h := items[|lead|];
      var rr := RepairedRun(h, run);
      RepairedRepeatsAnswered(rest);
      RepairedSplit(items, lead, h, run, rest);
      RepairedRunLaws(h, run);
      BlockRule(h, rr);
      PassesKeepCleanStart(rest);
      RuleConcat([h] + rr, Repaired(rest));
    }
  }

  /** Ids distinct inside each assistant are enough. */
  lemma {:induction false} DistinctIdsRepairOnce(items: seq<Item>)
    requires DistinctIdsInEachAssistant(items)
    ensures AllAnsweredOnce(Repaired(items)) && !RepairReport(Repaired(items)).Changed()
  {
    assert NoUnansweredRepeat(items);
    RepairRestoresRule(items);
    RepairIdempotentIff(items);
  }

  /** The smallest history that two repairs in a row both change. */
  lemma {:induction false} RepeatedIdChangesTwice(call: ToolCall)
    ensures var items := [Assistant("", [call, call], None)];
            RepairReport(items).Changed() && RepairReport(Repaired(items)).Changed()
  {
    var h := Assistant("", [call, call], None);
    var items := [h];
    assert items == [h] + [] && [h] + [] + [] == items;
    assert h.toolCalls[0].id == h.toolCalls[1].id && CallsId(h.toolCalls, h.toolCalls[0].id);
    BlockRule(h, []);
    RepairIdempotentIff(items);
    DedupedBlock(h, [], []);
    UndisplacedBlock(h, [], [], {});
    BackfilledBlock(h, [], []);
    MissingLaws(h.toolCalls, []);
    hide Deduped, Undisplaced, Backfilled, NoUnansweredRepeat, Missing;
    assert HasId(Backfill(h, []), call.id);
    assert |Backfilled(items)| >= |items| + |Backfill(h, [])|;
    assert Undisplaced(Deduped(items), {}) == items;
  }

  // ----------------------------------------------- which real results survive

  /** Results of no declared call of their run's head, and results a later one replaces. */
  ghost function DroppedByRepair(items: seq<Item>): set<nat> {
    set j | 0 <= j < |items| && items[j].ToolResult? && (!Owned(items, j) || Superseded(items, j))
  }

  ghost function DroppedByStrip(items: seq<Item>): set<nat> {
    set j | 0 <= j < |items| && items[j].ToolResult? && !Owned(items, j)
  }

  lemma {:induction false} SupersededConcat(p: seq<Item>, rest: seq<Item>, j: nat)
    requires CleanStart(rest) && j < |p| + |rest|
    ensures Superseded(p + rest, j) <==> if j < |p| then Superseded(p, j) else Superseded(rest, j - |p|)
  {
    var s := p + rest;
    assert forall k :: 0 <= k < |p| ==> s[k] == p[k];
    assert forall k :: 0 <= k < |rest| ==> s[|p| + k] == rest[k];
    forall k: nat | k < |s| ensures Head(s, k) == if k < |p| then Head(p, k) else Head(rest, k - |p|) + |p| {
      HeadConcat(p, rest, k);
    }
    hide Head, CleanStart;
    if j < |p| {
      forall k: nat | k < |s| ensures SameCall(s, j, k) <==> k < |p| && SameCall(p, j, k) {
        HeadConcat(p, rest, k);
      }
    } else {
      forall k: nat | |p| <= k < |s| ensures SameCall(s, j, k) <==> SameCall(rest, j - |p|, k - |p|) {}
      if Superseded(rest, j - |p|) {
        var k: nat :| j - |p| < k < |rest| && SameCall(rest, j - |p|, k);
        assert SameCall(s, j, k + |p|);
      }
    }
  }

  lemma {:induction false} DropsConcat(p: seq<Item>, rest: seq<Item>)
    requires CleanStart(rest)
    ensures Without(p + rest, DroppedByRepair(p + rest), 0) ==
            Without(p, DroppedByRepair(p), 0) + Without(rest, DroppedByRepair(rest), 0)
    ensures Without(p + rest, DroppedByStrip(p + rest), 0) ==
            Without(p, DroppedByStrip(p), 0) + Without(rest, DroppedByStrip(rest), 0)
  {
    hide CleanStart, Without, DroppedByRepair, DroppedByStrip;
    DroppedConcat(p, rest);
    WithoutParts(p, rest, DroppedByRepair(p + rest), DroppedByRepair(p), DroppedByRepair(rest));
    WithoutParts(p, rest, DroppedByStrip(p + rest), DroppedByStrip(p), DroppedByStrip(rest));
  }

  lemma {:induction false} DroppedConcat(p: seq<Item>, rest: seq<Item>)
    requires CleanStart(rest)
    ensures forall j: nat :: j < |p| + |rest| ==>
              (j in DroppedByRepair(p + rest) <==>
                  if j < |p| then j in DroppedByRepair(p) else j - |p| in DroppedByRepair(rest))
    ensures forall j: nat :: j < |p| + |rest| ==>
              (j in DroppedByStrip(p + rest) <==>
                  if j < |p| then j in DroppedByStrip(p) else j - |p| in DroppedByStrip(rest))
  {
    hide Superseded, Owned, CleanStart;
    var s := p + rest;
    forall j: nat | j < |s|
      ensures s[j] == if j < |p| then p[j] else rest[j - |p|]
      ensures Superseded(s, j) <==> if j < |p| then Superseded(p, j) else Superseded(rest, j - |p|)
      ensures Owned(s, j) <==> if j < |p| then Owned(p, j) else Owned(rest, j - |p|)
    {
      SupersededConcat(p, rest, j);
      ItemConcat(p, rest, j);
    }
  }

  lemma {:induction false} WithoutParts(p: seq<Item>, rest: seq<Item>, drop: set<nat>, dropP: set<nat>,
                                        dropRest: set<nat>)
    requires forall j: nat :: j < |p| + |rest| ==> (j in drop <==> if j < |p| then j in dropP else j - |p| in dropRest)
    ensures Without(p + rest, drop, 0) == Without(p, dropP, 0) + Without(rest, dropRest, 0)
  {
    hide Without;
    WithoutConcat(p, rest, drop, 0);
    WithoutAgree(p, drop, 0, dropP, 0);
    WithoutAgree(rest, drop, |p|, dropRest, 0);
  }

  lemma {:induction false} KeptIsWithout(run: seq<Item>, ids: set<string>, drop: set<nat>, base: nat)
    requires IsRun(run)
    requires forall n: nat :: base <= n < base + |run| ==>
      (n in drop <==> run[n - base].toolCallId !in ids || HasId(run[n - base + 1..], run[n - base].toolCallId))
    ensures KeepOwned(KeepLast(run), ids) == Without(run, drop, base)
  {
    hide HasId;
    if run != [] {
      var t := run[1..];
      assert base in drop <==> run[0].toolCallId !in ids || HasId(t, run[0].toolCallId);
      forall n: nat | base + 1 <= n < base + 1 + |t|
        ensures n in drop <==>
                t[n - base - 1].toolCallId !in ids || HasId(t[n - base - 1 + 1..], t[n - base - 1].toolCallId)
      {
        assert t[n - base - 1 + 1..] == run[n - base + 1..];
      }
      KeptIsWithout(t, ids, drop, base + 1);
    }
  }

  lemma {:induction false} OwnedIsWithout(run: seq<Item>, ids: set<string>, drop: set<nat>, base: nat)
    requires IsRun(run)
    requires forall n: nat :: base <= n < base + |run| ==> (n in drop <==> run[n - base].toolCallId !in ids)
    ensures KeepOwned(run, ids) == Without(run, drop, base)
  {
    if run != [] {
      assert base in drop <==> run[0].toolCallId !in ids;
      OwnedIsWithout(run[1..], ids, drop, base + 1);
    }
  }

  lemma {:induction false} BlockDrops(h: Item, run: seq<Item>)
    requires !h.ToolResult? && IsRun(run)
    ensures Without([h] + run, DroppedByRepair([h] + run), 0) == [h] + KeepOwned(KeepLast(run), HeadIds(h))
    ensures Without([h] + run, DroppedByStrip([h] + run), 0) == [h] + KeepOwned(run, HeadIds(h))
  {
    hide HasId, KeepLast, KeepOwned, HeadIds, DroppedByRepair, DroppedByStrip;
    var s := [h] + run;
    assert s[1..] == run;
    BlockDropped(h, run);
    KeptIsWithout(run, HeadIds(h), DroppedByRepair(s), 1);
    OwnedIsWithout(run, HeadIds(h), DroppedByStrip(s), 1);
  }

  lemma {:induction false} BlockDropped(h: Item, run: seq<Item>)
    requires !h.ToolResult? && IsRun(run)
    ensures 0 !in DroppedByRepair([h] + run) && 0 !in DroppedByStrip([h] + run)
    ensures forall n: nat :: 1 <= n < 1 + |run| ==>
              (n in DroppedByRepair([h] + run) <==>
               run[n - 1].toolCallId !in HeadIds(h) || HasId(run[n - 1 + 1..], run[n - 1].toolCallId))
    ensures forall n: nat :: 1 <= n < 1 + |run| ==>
              (n in DroppedByStrip([h] + run) <==> run[n - 1].toolCallId !in HeadIds(h))
  {
    hide Head, HasId, Superseded;
    var s := [h] + run;
    forall k: nat | k < |s| ensures Head(s, k) == 0 {
      HeadInBlock(h, run, k);
    }
    assert forall id :: id in HeadIds(h) <==> h.DeclaresCall(id);
    forall n: nat | 1 <= n < 1 + |run|
      ensures s[n] == run[n - 1] && Owned(s, n) <==> run[n - 1].toolCallId in HeadIds(h)
      ensures Superseded(s, n) <==> HasId(run[n - 1 + 1..], run[n - 1].toolCallId)
    {
      LaterInRun(h, run, n);
    }
  }

  lemma {:induction false} LaterInRun(h: Item, run: seq<Item>, n: nat)
    requires !h.ToolResult? && IsRun(run) && 1 <= n <= |run|
    requires forall k: nat :: k <= |run| ==> Head([h] + run, k) == 0
    ensures Superseded([h] + run, n) <==> HasId(run[n..], run[n - 1].toolCallId)
  {
    var s, later := [h] + run, run[n..];
    assert s[n] == run[n - 1];
    forall j: nat | n < j <= |run| ensures SameCall(s, n, j) <==> later[j - n - 1].toolCallId == s[n].toolCallId {
      assert s[j] == run[j - 1] == later[j - n - 1];
    }
    if HasId(later, s[n].toolCallId) {
      var k :| 0 <= k < |later| && later[k].toolCallId == s[n].toolCallId;
      assert SameCall(s, n, k + n + 1);
    }
  }

  lemma {:induction false} HeadInRun(run: seq<Item>, j: nat)
    requires IsRun(run) && j < |run|
    ensures Head(run, j) == -1
  {
    if j > 0 {
      HeadInRun(run, j - 1);
    }
  }

  lemma {:induction false} LeadDrops(lead: seq<Item>)
    requires IsRun(lead)
    ensures Without(lead, DroppedByRepair(lead), 0) == [] && Without(lead, DroppedByStrip(lead), 0) == []
  {
    forall j: nat | j < |lead| ensures !Owned(lead, j) {
      HeadInRun(lead, j);
    }
    WithoutAll(lead, DroppedByRepair(lead), 0);
    WithoutAll(lead, DroppedByStrip(lead), 0);
  }

  lemma {:induction false} WithoutAll<T>(s: seq<T>, drop: set<nat>, base: nat)
    requires forall n: nat :: base <= n < base + |s| ==> n in drop
    ensures Without(s, drop, base) == []
  {
    if s != [] {
      WithoutAll(s[1..], drop, base + 1);
    }
  }

  ghost predicate IsSynthetic(item: Item) {
    item.ToolResult? && item.images == [] && exists name :: item.output == SyntheticText(name)
  }

  ghost function Span(first: nat, count: nat): (r: set<nat>)
    ensures forall k: nat :: k in r <==> first <= k < first + count
    decreases count
  {
    if count == 0 then {} else {first} + Span(first + 1, count - 1)
  }

  /** Where backfilling puts its synthetic results, counting positions from `base`. */
  ghost function InsertedBy(items: seq<Item>, base: nat): set<nat>
    decreases |items|
  {
    if items == [] then {}
    else if items[0].Assistant? && items[0].toolCalls != [] then
      var n := RunLength(items[1..]);
      var first, count := base + 1 + n, |Missing(items[0].toolCalls, items[1..][..n])|;
      Span(first, count) + InsertedBy(items[1..][n..], first + count)
    else InsertedBy(items[1..], base + 1)
  }

  lemma {:induction false} MissingAreSynthetic(calls: seq<ToolCall>, run: seq<Item>)
    ensures forall k :: 0 <= k < |Missing(calls, run)| ==> IsSynthetic(Missing(calls, run)[k])
  {
    if calls != [] {
      MissingAreSynthetic(calls[1..], run);
    }
  }

  /** All positions of `at`, counted from `base`, hold synthetic results. */
  ghost predicate SyntheticAt(items: seq<Item>, at: set<nat>, base: nat) {
    forall k :: k in at ==> base <= k < base + |items| && IsSynthetic(items[k - base])
  }

  /** Backfilling adds synthetic results at those positions and changes nothing else. */
  lemma {:induction false} BackfillOnlyInserts(items: seq<Item>, base: nat)
    ensures SyntheticAt(Backfilled(items), InsertedBy(items, base), base)
    ensures Without(Backfilled(items), InsertedBy(items, base), base) == items
    decreases |items|
  {
    hide SyntheticText, IsSynthetic, Without, Backfilled, InsertedBy, RunLength, Missing, Span, SyntheticAt;
    if items == [] {
      NothingInserted(base);
      WithoutNone<Item>([], {}, base);
    } else if items[0].Assistant? && items[0].toolCalls != [] {
      var h, tail := items[0], items[1..];
      var run, rest := tail[..RunLength(tail)], tail[RunLength(tail)..];
      BackfillOnlyInserts(rest, base + 1 + |run| + |Missing(h.toolCalls, run)|);
      InsertsAfterRun(items, h, tail, run, rest, base);
    } else {
      PassesOver(items);
      InsertsNothing(items, base);
      BackfillOnlyInserts(items[1..], base + 1);
      assert [items[0]] + [] == [items[0]];
      InsertedShifted([items[0]], [], Backfilled(items[1..]), items[1..], base,
                      InsertedBy(items[1..], base + 1), InsertedBy(items, base));
    }
  }

  lemma {:induction false} NothingInserted(base: nat)
    ensures InsertedBy([], base) == {} && Backfilled([]) == [] && SyntheticAt([], {}, base)
  {}

  lemma {:induction false} InsertsNothing(items: seq<Item>, base: nat)
    requires items != [] && !(items[0].Assistant? && items[0].toolCalls != [])
    ensures InsertedBy(items, base) == Span(base + 1, 0) + InsertedBy(items[1..], base + 1)
    ensures items == [items[0]] + items[1..]
  {
    hide Backfilled;
  }

  /** One block: its missing results are inserted after its run. */
  lemma {:induction false} InsertsAfterRun(items: seq<Item>, h: Item, tail: seq<Item>, run: seq<Item>,
                                           rest: seq<Item>, base: nat)
    requires items != [] && h == items[0] && tail == items[1..] && h.Assistant? && h.toolCalls != []
    requires run == tail[..RunLength(tail)] && rest == tail[RunLength(tail)..]
    requires var next := base + 1 + |run| + |Missing(h.toolCalls, run)|;
             && Without(Backfilled(rest), InsertedBy(rest, next), next) == rest
             && SyntheticAt(Backfilled(rest), InsertedBy(rest, next), next)
    ensures Without(Backfilled(items), InsertedBy(items, base), base) == items
    ensures SyntheticAt(Backfilled(items), InsertedBy(items, base), base)
  {
    hide SyntheticText, IsSynthetic, Without, Backfilled, InsertedBy, RunLength, Missing, Span, SyntheticAt;
    var missing := Missing(h.toolCalls, run);
    BackfilledUnfolds(items, h, tail, run, rest);
    InsertedUnfolds(items, h, tail, run, rest, base);
    MissingAreSynthetic(h.toolCalls, run);
    HeadRunRest(items, h, tail, run, rest);
    var kept, next := [h] + run, base + 1 + |run| + |missing|;
    InsertedShifted(kept, missing, Backfilled(rest), rest, base, InsertedBy(rest, next), InsertedBy(items, base));
  }

  lemma {:induction false} HeadRunRest(items: seq<Item>, h: Item, tail: seq<Item>, run: seq<Item>, rest: seq<Item>)
    requires items != [] && h == items[0] && tail == items[1..]
    requires |run| <= |tail| && run == tail[..|run|] && rest == tail[|run|..]
    ensures items == [h] + run + rest
  {
    assert items == [h] + tail && tail == run + rest;
  }

  lemma {:induction false} InsertedUnfolds(items: seq<Item>, h: Item, tail: seq<Item>, run: seq<Item>,
                                           rest: seq<Item>, base: nat)
    requires items != [] && h == items[0] && tail == items[1..] && h.Assistant? && h.toolCalls != []
    requires run == tail[..RunLength(tail)] && rest == tail[RunLength(tail)..]
    ensures var missing := Missing(h.toolCalls, run);
            InsertedBy(items, base)
                == Span(base + 1 + |run|, |missing|) + InsertedBy(rest, base + 1 + |run| + |missing|)
  {
    hide Missing, Span, RunLength;
  }

  lemma {:induction false} BackfilledUnfolds(items: seq<Item>, h: Item, tail: seq<Item>, run: seq<Item>,
                                             rest: seq<Item>)
    requires items != [] && h == items[0] && tail == items[1..] && h.Assistant? && h.toolCalls != []
    requires run == tail[..RunLength(tail)] && rest == tail[RunLength(tail)..]
    ensures Backfilled(items) == [h] + run + Missing(h.toolCalls, run) + Backfilled(rest)
  {
    hide Missing, RunLength;
  }

  /** What holds of the rest holds with a block, and the results inserted after it, in front. */
  lemma {:induction false} InsertedShifted(kept: seq<Item>, missing: seq<Item>, filled: seq<Item>, rest: seq<Item>,
                                           base: nat, later: set<nat>, cut: set<nat>)
    requires var next := base + |kept| + |missing|;
             && cut == Span(base + |kept|, |missing|) + later && SyntheticAt(filled, later, next)
             && (forall k :: 0 <= k < |missing| ==> IsSynthetic(missing[k]))
             && Without(filled, later, next) == rest
    ensures Without(kept + missing + filled, cut, base) == kept + rest
    ensures SyntheticAt(kept + missing + filled, cut, base)
  {
    hide Without, IsSynthetic, Span;
    CutOut(kept, missing, filled, rest, base, later, cut);
    var all, next := kept + missing + filled, base + |kept| + |missing|;
    forall k | k in cut ensures base <= k < base + |all| && IsSynthetic(all[k - base]) {
      assert all[k - base] == if k < next then missing[k - base - |kept|] else filled[k - next];
    }
  }

  lemma {:induction false} CutOut(kept: seq<Item>, missing: seq<Item>, filled: seq<Item>, rest: seq<Item>,
                                  base: nat, later: set<nat>, cut: set<nat>)
    requires var next := base + |kept| + |missing|;
             && (forall k: nat :: k in cut <==> base + |kept| <= k < next || k in later)
             && (forall k :: k in later ==> next <= k)
             && Without(filled, later, next) == rest
    ensures Without(kept + missing + filled, cut, base) == kept + rest
  {
    hide Without;
    var next := base + |kept| + |missing|;
    WithoutConcat(kept + missing, filled, cut, base);
    WithoutConcat(kept, missing, cut, base);
    WithoutNone(kept, cut, base);
    WithoutAll(missing, cut, base + |kept|);
    WithoutAgree(filled, cut, next, later, next);
    assert kept + [] == kept;
  }

  /**
   Stripping drops exactly the results whose run's head does not declare them; repair
   drops in addition exactly the results that a later one of the same run replaces, and
   inserts synthetic results. Everything else stays, in order.
   */
  lemma {:induction false} ResultsThatSurvive(items: seq<Item>)
    ensures Undisplaced(items, {}) == Without(items, DroppedByStrip(items), 0)
    ensures var inserted := InsertedBy(Undisplaced(Deduped(items), {}), 0);
            && Without(Repaired(items), inserted, 0) == Without(items, DroppedByRepair(items), 0)
            && SyntheticAt(Repaired(items), inserted, 0)
  {
    hide Undisplaced, Deduped, Backfilled, Without, DroppedByRepair, DroppedByStrip, IsSynthetic, InsertedBy;
    ResultsThatPass(items);
    BackfillOnlyInserts(Undisplaced(Deduped(items), {}), 0);
  }

  /** The same of the first two passes, which drop. */
  lemma {:induction false} ResultsThatPass(items: seq<Item>)
    ensures Undisplaced(items, {}) == Without(items, DroppedByStrip(items), 0)
    ensures Undisplaced(Deduped(items), {}) == Without(items, DroppedByRepair(items), 0)
    decreases |items|
  {
    var lead, run, rest := Decompose(items);
    LeadDrops(lead);
    if |lead| >= |items| {
      assert lead + [] == lead;
      UndisplacedLead(lead, [], {});
      KeepOwnedNone(lead, {});
      DedupedLead(lead, []);
    } else {
      var h := items[|lead|];
      ResultsThatPass(rest);
      UndisplacedSplit(items, lead, h, run, rest);
      BlockDrops(h, run);
      DropsConcat(lead, [h] + run + rest);
      DropsConcat([h] + run, rest);
      hide Undisplaced, Deduped, Without, DroppedByRepair, DroppedByStrip;
    }
  }

  lemma {:induction false} UndisplacedSplit(items: seq<Item>, lead: seq<Item>, h: Item, run: seq<Item>, rest: seq<Item>)
    requires IsRun(lead) && !h.ToolResult? && IsRun(run) && CleanStart(rest)
    requires items == lead + ([h] + run + rest)
    ensures Undisplaced(items, {}) == [h] + KeepOwned(run, HeadIds(h)) + Undisplaced(rest, {})
    ensures Undisplaced(Deduped(items), {})
            == [h] + KeepOwned(KeepLast(run), HeadIds(h)) + Undisplaced(Deduped(rest), {})
  {
    var block := [h] + run + rest;
    UndisplacedLead(lead, block, {});
    KeepOwnedNone(lead, {});
    UndisplacedBlock(h, run, rest, {});
    DedupedLead(lead, block);
    DedupedBlock(h, run, rest);
    PassesKeepCleanStart(block);
    PassesKeepCleanStart(rest);
    UndisplacedLead(lead, Deduped(block), {});
    var once := if h.Assistant? && h.toolCalls != [] then KeepLast(run) else run;
    UndisplacedBlock(h, once, Deduped(rest), {});
    if HeadIds(h) == {} {
      KeepOwnedNone(once, HeadIds(h));
      KeepOwnedNone(KeepLast(run), HeadIds(h));
    } else {
      assert h.Assistant? && h.toolCalls != [];
    }
    hide Undisplaced, Deduped;
  }
}
