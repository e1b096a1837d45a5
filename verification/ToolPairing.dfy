/**
 The provider rule that a tool result sits in the contiguous run directly after the
 assistant message declaring its call, and the passes that restore it:
 `dedup_duplicate_tool_results`, `strip_displaced_tool_results`,
 `repair_dangling_tool_calls` and their composition `repair_history`.
 */
module ToolPairing {
  import opened Conversation

  // ------------------------------------------------------------ the rule itself

  /** The last non-result item at or before `j`: the head of the run that `j` is in. */
  function Head(items: seq<Item>, j: nat): (h: int)
    requires j < |items|
    ensures -1 <= h <= j
    ensures 0 <= h ==> !items[h].ToolResult?
    ensures forall k :: h < k <= j ==> items[k].ToolResult?
  {
    if !items[j].ToolResult? then j
    else if j == 0 then -1
    else Head(items, j - 1)
  }

  /** Result `j` belongs to the assistant heading its run. */
  ghost predicate Owned(items: seq<Item>, j: nat)
    requires j < |items|
  {
    items[j].ToolResult? && 0 <= Head(items, j) && items[Head(items, j)].DeclaresCall(items[j].toolCallId)
  }

  /** Result `j` answers call `id` of the assistant at `i`. */
  ghost predicate Answers(items: seq<Item>, i: int, id: string, j: nat) {
    j < |items| && items[j].ToolResult? && items[j].toolCallId == id && Head(items, j) == i
  }

  ghost predicate Answered(items: seq<Item>, i: int, id: string) {
    exists j :: Answers(items, i, id, j)
  }

  ghost predicate AnsweredOnce(items: seq<Item>, i: int, id: string) {
    exists j :: Answers(items, i, id, j) && forall j' :: Answers(items, i, id, j') ==> j' == j
  }

  ghost predicate AllOwned(items: seq<Item>) {
    forall j :: 0 <= j < |items| && items[j].ToolResult? ==> Owned(items, j)
  }

  /** Every call of the assistant at `i` has exactly one answer. */
  ghost predicate CallsAnsweredOnce(items: seq<Item>, i: nat)
    requires i < |items|
  {
    items[i].Assistant? ==> forall k :: 0 <= k < |items[i].toolCalls| ==>
        AnsweredOnce(items, i, items[i].toolCalls[k].id)
  }

  ghost predicate AllAnsweredOnce(items: seq<Item>) {
    forall i :: 0 <= i < |items| ==> CallsAnsweredOnce(items, i)
  }

  /** The assistant at `i` declares no id twice while leaving it unanswered. */
  ghost predicate RepeatsOnlyAnswered(items: seq<Item>, i: nat)
    requires i < |items|
  {
    items[i].Assistant? ==>
      forall a, b :: 0 <= a < b < |items[i].toolCalls| && items[i].toolCalls[a].id == items[i].toolCalls[b].id ==>
        Answered(items, i, items[i].toolCalls[a].id)
  }

  ghost predicate NoUnansweredRepeat(items: seq<Item>) {
    forall i :: 0 <= i < |items| ==> RepeatsOnlyAnswered(items, i)
  }

  /** A later result of the same run has the same id. */
  ghost predicate Superseded(items: seq<Item>, j: nat)
    requires j < |items|
  {
    && items[j].ToolResult?
    && (exists j' :: j < j' < |items| && SameCall(items, j, j'))
  }

  /** `j` and `j'` are results for one id in one run. */
  predicate SameCall(items: seq<Item>, j: nat, j': nat)
    requires j < |items| && j' < |items|
  {
    && items[j].ToolResult? && items[j'].ToolResult?
    && items[j'].toolCallId == items[j].toolCallId
    && Head(items, j') == Head(items, j)
  }

  function NonResults(items: seq<Item>): seq<Item> {
    if items == [] then []
    else (if items[0].ToolResult? then [] else [items[0]]) + NonResults(items[1..])
  }

  ghost predicate DistinctCalls(calls: seq<ToolCall>) {
    forall a, b :: 0 <= a < b < |calls| ==> calls[a].id != calls[b].id
  }

  ghost predicate DistinctIdsInEachAssistant(items: seq<Item>) {
    forall i :: 0 <= i < |items| && items[i].Assistant? ==> DistinctCalls(items[i].toolCalls)
  }

  // ---------------------------------------------------------- runs of results

  predicate IsRun(run: seq<Item>) {
    forall k :: 0 <= k < |run| ==> run[k].ToolResult?
  }

  predicate HasId(run: seq<Item>, id: string) {
    exists k :: 0 <= k < |run| && run[k].ToolResult? && run[k].toolCallId == id
  }

  ghost predicate DistinctIds(run: seq<Item>)
    requires IsRun(run)
  {
    forall a, b :: 0 <= a < b < |run| ==> run[a].toolCallId != run[b].toolCallId
  }

  /** Length of the run of results that `items` starts with. */
  function RunLength(items: seq<Item>): (n: nat)
    ensures n <= |items| && IsRun(items[..n])
    ensures n < |items| ==> !items[n].ToolResult?
  {
    if items == [] || !items[0].ToolResult? then 0 else 1 + RunLength(items[1..])
  }

  /** The later of two results for one id wins. */
  function KeepLast(run: seq<Item>): (r: seq<Item>)
    requires IsRun(run)
    ensures IsRun(r) && |r| <= |run|
  {
    if run == [] then []
    else if HasId(run[1..], run[0].toolCallId) then KeepLast(run[1..])
    else [run[0]] + KeepLast(run[1..])
  }

  function KeepOwned(run: seq<Item>, ids: set<string>): (r: seq<Item>)
    requires IsRun(run)
    ensures IsRun(r) && |r| <= |run|
  {
    if run == [] then []
    else if run[0].toolCallId in ids then [run[0]] + KeepOwned(run[1..], ids)
    else KeepOwned(run[1..], ids)
  }

  function SyntheticText(name: string): string {
    "Tool execution was halted by the harness (history_repair); the tool `" + name + "` was not executed."
  }

  /** A synthetic result for every call the run leaves unanswered, in call order. */
  function Missing(calls: seq<ToolCall>, run: seq<Item>): (r: seq<Item>)
    ensures IsRun(r)
  {
    if calls == [] then []
    else if HasId(run, calls[0].id) then Missing(calls[1..], run)
    else [ToolResult(calls[0].id, SyntheticText(calls[0].name), [])] + Missing(calls[1..], run)
  }

  // ------------------------------------------------------- what each pass leaves

  function Deduped(items: seq<Item>): (r: seq<Item>)
    ensures |r| <= |items|
    decreases |items|
  {
    if items == [] then []
    else if items[0].Assistant? && items[0].toolCalls != [] then
      var n := RunLength(items[1..]);
      [items[0]] + KeepLast(items[1..][..n]) + Deduped(items[1..][n..])
    else [items[0]] + Deduped(items[1..])
  }

  /** `ids`: the calls declared by the assistant heading the run in progress. */
  function Undisplaced(items: seq<Item>, ids: set<string>): (r: seq<Item>)
    ensures |r| <= |items|
  {
    if items == [] then []
    else match items[0]
      case Assistant(_, calls, _) => [items[0]] + Undisplaced(items[1..], CallIds(calls))
      case ToolResult(id, _, _) =>
        if id in ids then [items[0]] + Undisplaced(items[1..], ids) else Undisplaced(items[1..], ids)
      case _ => [items[0]] + Undisplaced(items[1..], {})
  }

  function DisplacedIds(items: seq<Item>, ids: set<string>): (r: seq<string>)
    ensures |r| + |Undisplaced(items, ids)| == |items|
  {
    if items == [] then []
    else match items[0]
      case Assistant(_, calls, _) => DisplacedIds(items[1..], CallIds(calls))
      case ToolResult(id, _, _) =>
        if id in ids then DisplacedIds(items[1..], ids) else [id] + DisplacedIds(items[1..], ids)
      case _ => DisplacedIds(items[1..], {})
  }

  function Backfilled(items: seq<Item>): (r: seq<Item>)
    ensures |r| >= |items|
    ensures items == [] ==> r == []
    decreases |items|
  {
    if items == [] then []
    else if items[0].Assistant? && items[0].toolCalls != [] then
      var n := RunLength(items[1..]);
      var run := items[1..][..n];
      [items[0]] + run + Missing(items[0].toolCalls, run) + Backfilled(items[1..][n..])
    else [items[0]] + Backfilled(items[1..])
  }

  function Repaired(items: seq<Item>): seq<Item> {
    Backfilled(Undisplaced(Deduped(items), {}))
  }

  datatype Report = Report(duplicatesRemoved: nat, strippedIds: seq<string>, syntheticInserted: nat) {
    predicate Changed() {
      duplicatesRemoved > 0 || strippedIds != [] || syntheticInserted > 0
    }
  }

  function RepairReport(items: seq<Item>): Report {
    var deduped := Deduped(items);
    var kept := Undisplaced(deduped, {});
    Report(|items| - |deduped|, DisplacedIds(deduped, {}), |Backfilled(kept)| - |kept|)
  }

  // ---------------------------------------------------------- dropping by index

  /** Elements of `s`, numbered from `base`, whose number is not in `drop`. */
  ghost function Without<T>(s: seq<T>, drop: set<nat>, base: nat): seq<T> {
    if s == [] then []
    else (if base in drop then [] else [s[0]]) + Without(s[1..], drop, base + 1)
  }

  lemma {:induction false} WithoutNone<T>(s: seq<T>, drop: set<nat>, base: nat)
    requires forall d :: d in drop ==> !(base <= d < base + |s|)
    ensures Without(s, drop, base) == s
  {
    if s != [] {
      WithoutNone(s[1..], drop, base + 1);
    }
  }

  lemma {:induction false} WithoutAgree<T>(s: seq<T>, drop: set<nat>, base: nat, drop': set<nat>, base': nat)
    requires forall n: nat :: base <= n < base + |s| ==> (n in drop <==> n - base + base' in drop')
    ensures Without(s, drop, base) == Without(s, drop', base')
  {
    if s != [] {
      assert base in drop <==> base' in drop';
      WithoutAgree(s[1..], drop, base + 1, drop', base' + 1);
    }
  }

  lemma {:induction false} WithoutConcat<T>(a: seq<T>, b: seq<T>, drop: set<nat>, base: nat)
    ensures Without(a + b, drop, base) == Without(a, drop, base) + Without(b, drop, base + |a|)
  {
    if a == [] {
      assert a + b == b;
    } else {
      assert (a + b)[1..] == a[1..] + b;
      WithoutConcat(a[1..], b, drop, base + 1);
    }
  }

  // ------------------------------------------------------------ laws of runs

  lemma {:induction false} RunLengthOf(run: seq<Item>, rest: seq<Item>)
    requires IsRun(run) && CleanStart(rest)
    ensures RunLength(run + rest) == |run|
  {
    if run == [] {
      assert run + rest == rest;
    } else {
      assert (run + rest)[1..] == run[1..] + rest;
      RunLengthOf(run[1..], rest);
    }
  }

  predicate CleanStart(items: seq<Item>) {
    items == [] || !items[0].ToolResult?
  }

  /** Whether a run with one more result in front holds an id, and holds it once. */
  lemma {:induction false} ConsRun(h: Item, t: seq<Item>)
    requires h.ToolResult? && IsRun(t)
    ensures IsRun([h] + t)
    ensures forall id :: HasId([h] + t, id) <==> h.toolCallId == id || HasId(t, id)
    ensures DistinctIds([h] + t) <==> DistinctIds(t) && !HasId(t, h.toolCallId)
  {
    var s := [h] + t;
    assert s[0] == h && forall k :: 0 <= k < |t| ==> s[k + 1] == t[k];
    assert forall k :: 0 < k < |s| ==> s[k] == t[k - 1];
    if HasId(t, h.toolCallId) {
      var k :| 0 <= k < |t| && t[k].toolCallId == h.toolCallId;
      assert s[0].toolCallId == s[k + 1].toolCallId;
    }
  }

  lemma {:induction false} KeepLastLaws(run: seq<Item>)
    requires IsRun(run)
    ensures DistinctIds(KeepLast(run))
    ensures forall id :: HasId(KeepLast(run), id) <==> HasId(run, id)
    ensures |KeepLast(run)| == |run| <==> DistinctIds(run)
    ensures DistinctIds(run) ==> KeepLast(run) == run
  {
    if run != [] {
      var h, t := run[0], run[1..];
      assert run == [h] + t;
      KeepLastLaws(t);
      ConsRun(h, t);
      ConsRun(h, KeepLast(t));
      hide HasId, DistinctIds, IsRun;
    }
  }

  lemma {:induction false} KeepOwnedLaws(run: seq<Item>, ids: set<string>)
    requires IsRun(run)
    ensures forall id :: HasId(KeepOwned(run, ids), id) <==> id in ids && HasId(run, id)
    ensures DistinctIds(run) ==> DistinctIds(KeepOwned(run, ids))
    ensures (forall k :: 0 <= k < |run| ==> run[k].toolCallId in ids) ==> KeepOwned(run, ids) == run
  {
    if run != [] {
      var h, t := run[0], run[1..];
      assert run == [h] + t;
      KeepOwnedLaws(t, ids);
      ConsRun(h, t);
      ConsRun(h, KeepOwned(t, ids));
      assert forall k :: 0 <= k < |t| ==> t[k] == run[k + 1];
      hide HasId, DistinctIds, IsRun;
    }
  }

  ghost predicate CallsId(calls: seq<ToolCall>, id: string) {
    exists k :: 0 <= k < |calls| && calls[k].id == id
  }

  ghost predicate RepeatsAnswered(calls: seq<ToolCall>, run: seq<Item>) {
    forall a, b :: 0 <= a < b < |calls| && calls[a].id == calls[b].id ==> HasId(run, calls[a].id)
  }

  lemma {:induction false} CallsCons(c: ToolCall, t: seq<ToolCall>, run: seq<Item>)
    ensures forall id :: CallsId([c] + t, id) <==> c.id == id || CallsId(t, id)
    ensures RepeatsAnswered([c] + t, run) <==>
            RepeatsAnswered(t, run) && (CallsId(t, c.id) ==> HasId(run, c.id))
  {
    hide HasId;
    var calls := [c] + t;
    assert calls[0] == c && forall k :: 0 <= k < |t| ==> calls[k + 1] == t[k];
    assert forall k :: 0 < k < |calls| ==> calls[k] == t[k - 1];
  }

  lemma {:induction false} MissingLaws(calls: seq<ToolCall>, run: seq<Item>)
    ensures forall id :: HasId(Missing(calls, run), id) <==> CallsId(calls, id) && !HasId(run, id)
    ensures DistinctIds(Missing(calls, run)) <==> RepeatsAnswered(calls, run)
  {
    if calls != [] {
      var c, t := calls[0], calls[1..];
      assert calls == [c] + t;
      MissingLaws(t, run);
      CallsCons(c, t, run);
      ConsRun(ToolResult(c.id, SyntheticText(c.name), []), Missing(t, run));
      hide HasId, CallsId, DistinctIds, RepeatsAnswered, SyntheticText;
    }
  }

  lemma {:induction false} DistinctConcat(a: seq<Item>, b: seq<Item>)
    requires IsRun(a) && IsRun(b)
    requires forall id :: HasId(a, id) ==> !HasId(b, id)
    ensures IsRun(a + b) && (DistinctIds(a + b) <==> DistinctIds(a) && DistinctIds(b))
  {
    var s := a + b;
    assert forall k :: 0 <= k < |a| ==> s[k] == a[k] && HasId(a, a[k].toolCallId);
    assert forall k :: 0 <= k < |b| ==> s[|a| + k] == b[k] && HasId(b, b[k].toolCallId);
  }

  lemma {:induction false} HasIdConcat(a: seq<Item>, b: seq<Item>, id: string)
    ensures HasId(a + b, id) <==> HasId(a, id) || HasId(b, id)
  {
    var s := a + b;
    assert forall k :: 0 <= k < |a| ==> s[k] == a[k];
    assert forall k :: 0 <= k < |b| ==> s[|a| + k] == b[k];
  }

  // -------------------------------------------- each pass works block by block

  /** Both scans pass over an item that declares no call. */
  lemma {:induction false} PassesOver(items: seq<Item>)
    requires items != [] && !(items[0].Assistant? && items[0].toolCalls != [])
    ensures Deduped(items) == [items[0]] + Deduped(items[1..])
    ensures Backfilled(items) == [items[0]] + Backfilled(items[1..])
  {}

  lemma {:induction false} DedupesRun(items: seq<Item>, n: nat)
    requires items != [] && items[0].Assistant? && items[0].toolCalls != [] && n == RunLength(items[1..])
    ensures Deduped(items) == [items[0]] + KeepLast(items[1..][..n]) + Deduped(items[1..][n..])
  {}

  lemma {:induction false} DedupedBlock(h: Item, run: seq<Item>, rest: seq<Item>)
    requires !h.ToolResult? && IsRun(run) && CleanStart(rest)
    ensures Deduped([h] + run + rest) ==
            [h] + (if h.Assistant? && h.toolCalls != [] then KeepLast(run) else run) + Deduped(rest)
  {
    hide Deduped, Backfilled, KeepLast, IsRun, CleanStart;
    var s := [h] + run + rest;
    assert s[1..] == run + rest;
    if h.Assistant? && h.toolCalls != [] {
      RunLengthOf(run, rest);
      DedupesRun(s, |run|);
      assert (run + rest)[..|run|] == run && (run + rest)[|run|..] == rest;
    } else {
      PassesOver(s);
      DedupedLead(run, rest);
      assert [h] + (run + Deduped(rest)) == [h] + run + Deduped(rest);
    }
  }

  lemma {:induction false} DedupedLead(run: seq<Item>, rest: seq<Item>)
    requires IsRun(run)
    ensures Deduped(run + rest) == run + Deduped(rest)
  {
    if run == [] {
      assert run + rest == rest;
    } else {
      assert (run + rest)[1..] == run[1..] + rest;
      DedupedLead(run[1..], rest);
    }
  }

  function HeadIds(h: Item): set<string> {
    if h.Assistant? then CallIds(h.toolCalls) else {}
  }

  lemma {:induction false} UndisplacedLead(run: seq<Item>, rest: seq<Item>, ids: set<string>)
    requires IsRun(run) && CleanStart(rest)
    ensures Undisplaced(run + rest, ids) == KeepOwned(run, ids) + Undisplaced(rest, {})
  {
    if run == [] {
      assert run + rest == rest;
    } else {
      assert (run + rest)[1..] == run[1..] + rest;
      UndisplacedLead(run[1..], rest, ids);
    }
  }

  lemma {:induction false} UndisplacedBlock(h: Item, run: seq<Item>, rest: seq<Item>, ids: set<string>)
    requires !h.ToolResult? && IsRun(run) && CleanStart(rest)
    ensures Undisplaced([h] + run + rest, ids) == [h] + KeepOwned(run, HeadIds(h)) + Undisplaced(rest, {})
  {
    var s := [h] + run + rest;
    assert s[1..] == run + rest;
    UndisplacedLead(run, rest, HeadIds(h));
    assert [h] + (KeepOwned(run, HeadIds(h)) + Undisplaced(rest, {}))
           == [h] + KeepOwned(run, HeadIds(h)) + Undisplaced(rest, {});
  }

  function Backfill(h: Item, run: seq<Item>): (r: seq<Item>)
    ensures IsRun(r)
  {
    if h.Assistant? then Missing(h.toolCalls, run) else []
  }

  lemma {:induction false} BackfilledBlock(h: Item, run: seq<Item>, rest: seq<Item>)
    requires !h.ToolResult? && IsRun(run) && CleanStart(rest)
    ensures Backfilled([h] + run + rest) == [h] + (run + Backfill(h, run)) + Backfilled(rest)
  {
    var s, tail := [h] + run + rest, run + rest;
    assert s[1..] == tail;
    RunLengthOf(run, rest);
    BackfilledLead(run, rest);
    BackfilledUnfold(s, h, tail, run, rest);
    hide Backfilled, Missing;
    Reassociate(h, run, Backfill(h, run), Backfilled(rest));
  }

  lemma {:induction false} BackfilledUnfold(s: seq<Item>, h: Item, tail: seq<Item>, run: seq<Item>, rest: seq<Item>)
    requires s != [] && s[0] == h && s[1..] == tail && tail == run + rest
    requires Backfilled(tail) == run + Backfilled(rest) && RunLength(tail) == |run|
    ensures Backfilled(s) == [h] + (run + (Backfill(h, run) + Backfilled(rest)))
  {
    var b, r := Backfill(h, run), Backfilled(rest);
    assert tail[..|run|] == run && tail[|run|..] == rest;
    assert (h.Assistant? && h.toolCalls != []) || b == [];
    hide Missing, SyntheticText;
    Reassociate(h, run, b, r);
    assert b == [] ==> b + r == r;
  }

  lemma {:induction false} Reassociate(h: Item, a: seq<Item>, b: seq<Item>, c: seq<Item>)
    ensures [h] + a + b + c == [h] + (a + b) + c == [h] + (a + (b + c))
    ensures [h] + (a + c) == [h] + a + c
  {}

  lemma {:induction false} BackfilledLead(run: seq<Item>, rest: seq<Item>)
    requires IsRun(run)
    ensures Backfilled(run + rest) == run + Backfilled(rest)
  {
    if run == [] {
      assert run + rest == rest;
    } else {
      assert (run + rest)[1..] == run[1..] + rest;
      BackfilledLead(run[1..], rest);
    }
  }

  /** What repair makes of the run of results that follows `h`. */
  function RepairedRun(h: Item, run: seq<Item>): (r: seq<Item>)
    requires IsRun(run)
    ensures IsRun(r)
  {
    var kept := KeepOwned(KeepLast(run), HeadIds(h));
    kept + Backfill(h, kept)
  }

  lemma {:induction false} KeepOwnedNone(run: seq<Item>, ids: set<string>)
    requires IsRun(run) && ids == {}
    ensures KeepOwned(run, ids) == []
  {
    if run != [] {
      KeepOwnedNone(run[1..], ids);
    }
  }

  lemma {:induction false} PassesKeepCleanStart(rest: seq<Item>)
    requires CleanStart(rest)
    ensures CleanStart(Deduped(rest)) && CleanStart(Undisplaced(rest, {})) && CleanStart(Backfilled(rest))
    ensures CleanStart(Repaired(rest))
  {
    UndisplacedStartsClean(rest);
    UndisplacedStartsClean(Deduped(rest));
    BackfilledStartsClean(rest);
    BackfilledStartsClean(Undisplaced(Deduped(rest), {}));
    hide Undisplaced, Backfilled;
  }

  lemma {:induction false} BackfilledStartsClean(items: seq<Item>)
    requires CleanStart(items)
    ensures CleanStart(Backfilled(items))
  {}

  lemma {:induction false} UndisplacedStartsClean(items: seq<Item>)
    ensures CleanStart(Undisplaced(items, {}))
  {
    if items != [] && items[0].ToolResult? {
      UndisplacedStartsClean(items[1..]);
    }
  }

  lemma {:induction false} RepairedBlock(h: Item, run: seq<Item>, rest: seq<Item>)
    requires !h.ToolResult? && IsRun(run) && CleanStart(rest)
    ensures Repaired([h] + run + rest) == [h] + RepairedRun(h, run) + Repaired(rest)
  {
    var d := if h.Assistant? && h.toolCalls != [] then KeepLast(run) else run;
    var kept := KeepOwned(d, HeadIds(h));
    PassesKeepCleanStart(rest);
    PassesKeepCleanStart(Deduped(rest));
    DedupedBlock(h, run, rest);
    UndisplacedBlock(h, d, Deduped(rest), {});
    BackfilledBlock(h, kept, Undisplaced(Deduped(rest), {}));
    if HeadIds(h) == {} {
      KeepOwnedNone(d, HeadIds(h));
      KeepOwnedNone(KeepLast(run), HeadIds(h));
    } else {
      assert h.Assistant? && h.toolCalls != [];
    }
  }

  lemma {:induction false} RepairedLead(run: seq<Item>, rest: seq<Item>)
    requires IsRun(run) && CleanStart(rest)
    ensures Repaired(run + rest) == Repaired(rest)
  {
    PassesKeepCleanStart(rest);
    DedupedLead(run, rest);
    UndisplacedLead(run, Deduped(rest), {});
    KeepOwnedNone(run, {});
    hide Deduped, Undisplaced, Backfilled;
    assert [] + Undisplaced(Deduped(rest), {}) == Undisplaced(Deduped(rest), {});
  }

  /** Every history is a run of stray results followed by head-and-run blocks. */
  lemma {:induction false} Decompose(items: seq<Item>) returns (lead: seq<Item>, run: seq<Item>, rest: seq<Item>)
    ensures IsRun(lead) && IsRun(run) && CleanStart(rest)
    ensures |lead| < |items| ==> !items[|lead|].ToolResult? && items == lead + ([items[|lead|]] + run + rest)
    ensures |lead| >= |items| ==> items == lead
    ensures |rest| < |items| || items == []
  {
    var n := RunLength(items);
    lead := items[..n];
    if n < |items| {
      var tail := items[n + 1..];
      var m := RunLength(tail);
      run, rest := tail[..m], tail[m..];
      assert items == lead + ([items[n]] + run + rest);
    } else {
      run, rest := [], [];
      assert items == lead;
    }
  }
}
