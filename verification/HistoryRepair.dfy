/**
 The repair passes as the source runs them: index scans over one history that is
 edited in place. Each is proved to leave what `ToolPairing` says it leaves.
 */
module HistoryRepair {
  import opened Conversation
  import opened ToolPairing

  class History {
    var items: seq<Item>

    constructor (initial: seq<Item>)
      ensures items == initial
    {
      items := initial;
    }

    method DedupDuplicateToolResults() returns (totalRemoved: nat)
      modifies this
      ensures items == Deduped(old(items))
      ensures totalRemoved == |old(items)| - |items|
    {
      hide Deduped, KeepLast, Without, IsRun;
      totalRemoved := 0;
      var i := 0;
      while i < |items|
        invariant i <= |items|
        invariant items[..i] + Deduped(items[i..]) == Deduped(old(items))
        invariant |items| + totalRemoved == |old(items)|
        decreases |items| - i
      {
        if items[i].Assistant? && items[i].toolCalls != [] {
          var start := i + 1;
          var end := RunEnd(items, start);
          DedupedFrom(items, i, end);
          ghost var before := items;
          var toRemove := FindShadowed(items, start, end);
          if toRemove != {} {
            totalRemoved := totalRemoved + |toRemove|;
            RemoveDescending(toRemove, start, end);
            DedupedAgain(before, items, i, end);
            continue; // the window shifted: look at the same assistant again
          }
          WithoutNone(items[start..end], toRemove, start);
          assert items[..end] == items[..i] + ([items[i]] + items[start..end]);
          i := end;
        } else {
          DedupedSkip(items, i);
          i := i + 1;
        }
      }
      assert items[..i] == items && items[i..] == [];
    }

    /** Drops the marked results from the back, so that earlier indices stay valid. */
    method RemoveDescending(marked: set<nat>, start: nat, end: nat)
      requires start <= end <= |items|
      requires forall m :: m in marked ==> start <= m < end
      modifies this
      ensures items == old(items[..start]) + (Without(old(items[start..end]), marked, start) + old(items[end..]))
      ensures |items| == |old(items)| - |marked|
    {
      var rest, stop := marked, end;
      while rest != {}
        invariant rest <= marked && start <= stop <= |items|
        invariant forall m :: m in rest ==> start <= m < stop
        invariant items[..start] == old(items[..start])
        invariant Without(items[start..stop], rest, start) + items[stop..] ==
                  Without(old(items[start..end]), marked, start) + old(items[end..])
        invariant |items| == |old(items)| - |marked| + |rest|
        decreases |rest|
      {
        var m := Largest(rest);
        RemoveLargest(items, start, stop, rest, m);
        items := items[..m] + items[m + 1..];
        rest, stop := rest - {m}, m;
      }
      WithoutNone(items[start..stop], rest, start);
      assert items == items[..start] + (items[start..stop] + items[stop..]);
    }

    method StripDisplacedToolResults() returns (stripped: seq<string>)
      modifies this
      ensures items == Undisplaced(old(items), {})
      ensures stripped == DisplacedIds(old(items), {})
    {
      hide Undisplaced, DisplacedIds, CallIds;
      var runIds: set<string> := {};
      var kept: seq<Item> := [];
      stripped := [];
      for i := 0 to |items|
        invariant items == old(items)
        invariant kept + Undisplaced(items[i..], runIds) == Undisplaced(items, {})
        invariant stripped + DisplacedIds(items[i..], runIds) == DisplacedIds(items, {})
      {
        UndisplacedStep(items, i, runIds, kept, stripped);
        match items[i] {
          case Assistant(_, calls, _) =>
            runIds := CallIds(calls);
            kept := kept + [items[i]];
          case ToolResult(id, _, _) =>
            if id in runIds {
              kept := kept + [items[i]];
            } else {
              stripped := stripped + [id];
            }
          case _ =>
            runIds := {};
            kept := kept + [items[i]];
        }
      }
      assert items[|items|..] == [];
      UndisplacedNothing(runIds);
      items := kept;
    }

    method RepairDanglingToolCalls() returns (total: nat)
      modifies this
      ensures items == Backfilled(old(items))
      ensures total == |items| - |old(items)|
    {
      hide Backfilled, Missing, IsRun, CleanStart, Spliced;
      NoRepairs(items);
      var repairs: seq<(nat, seq<Item>)> := [];
      var i := 0;
      while i < |items|
        invariant i <= |items| && items == old(items)
        invariant forall k :: 0 <= k < |repairs| ==> repairs[k].0 <= i
        invariant Spliced(items[..i], repairs) + Backfilled(items[i..]) == Backfilled(items)
      {
        if items[i].Assistant? && items[i].toolCalls != [] {
          var end := RunEnd(items, i + 1);
          var synthetic := Missing(items[i].toolCalls, items[i + 1..end]);
          BackfilledFrom(items, i, end, repairs);
          if synthetic != [] {
            repairs := repairs + [(end, synthetic)];
          }
          i := end;
        } else {
          BackfilledSkip(items, i, repairs);
          i := i + 1;
        }
      }
      assert items[..i] == items && items[i..] == [];
      SplicedLength(items, repairs);
      total := SplicedCount(repairs);
      InsertFromBack(repairs);
    }

    /** Inserts from the back, so that earlier positions stay valid. */
    method InsertFromBack(repairs: seq<(nat, seq<Item>)>)
      requires forall k :: 0 <= k < |repairs| ==> repairs[k].0 <= |items|
      modifies this
      ensures items == Spliced(old(items), repairs)
    {
      var k := |repairs|;
      assert repairs[..k] == repairs;
      while k > 0
        invariant k <= |repairs|
        invariant forall m :: 0 <= m < k ==> repairs[m].0 <= |items|
        invariant Spliced(items, repairs[..k]) == Spliced(old(items), repairs)
      {
        k := k - 1;
        var (at, synthetic) := repairs[k];
        assert repairs[..k + 1][..k] == repairs[..k];
        items := items[..at] + synthetic + items[at..];
      }
    }

    method RepairHistory() returns (report: Report)
      modifies this
      ensures items == Repaired(old(items))
      ensures report == RepairReport(old(items))
      ensures |items| == |old(items)| - report.duplicatesRemoved - |report.strippedIds| + report.syntheticInserted
    {
      var duplicates := DedupDuplicateToolResults();
      var stripped := StripDisplacedToolResults();
      var synthetic := RepairDanglingToolCalls();
      report := Report(duplicates, stripped, synthetic);
    }
  }

  /** One step of the scan, from the ids in force before item `i` to those after it. */
  lemma {:induction false} UndisplacedStep(items: seq<Item>, i: nat, ids: set<string>, kept: seq<Item>,
                                           stripped: seq<string>)
    requires i < |items|
    ensures var item := items[i];
            var strips := item.ToolResult? && item.toolCallId !in ids;
            var ids' := if item.Assistant? then CallIds(item.toolCalls) else if item.ToolResult? then ids else {};
            && (if strips then kept else kept + [item]) + Undisplaced(items[i + 1..], ids')
                == kept + Undisplaced(items[i..], ids)
            && (if strips then stripped + [item.toolCallId] else stripped) + DisplacedIds(items[i + 1..], ids')
               == stripped + DisplacedIds(items[i..], ids)
  {
    assert items[i..][1..] == items[i + 1..];
    hide CallIds;
  }

  lemma {:induction false} UndisplacedNothing(ids: set<string>)
    ensures Undisplaced([], ids) == [] && DisplacedIds([], ids) == []
  {}

  /** End of the run of results that starts at `start`. */
  method RunEnd(items: seq<Item>, start: nat) returns (end: nat)
    requires start <= |items|
    ensures start <= end <= |items| && IsRun(items[start..end]) && CleanStart(items[end..])
  {
    end := start;
    while end < |items|
      invariant start <= end <= |items| && IsRun(items[start..end])
    {
      if !items[end].ToolResult? {
        return;
      }
      assert items[start..end + 1] == items[start..end] + [items[end]];
      end := end + 1;
    }
  }

  // ---------------------------------------------------------------- duplicates

  /** A later result of the run up to `end` has the same id. */
  predicate ShadowedBy(items: seq<Item>, p: nat, end: nat) {
    p < end <= |items| && items[p].ToolResult?
    && exists q :: p < q < end && items[q].ToolResult? && items[q].toolCallId == items[p].toolCallId
  }

  ghost function Shadowed(items: seq<Item>, start: nat, end: nat): set<nat> {
    set p | start <= p < end && ShadowedBy(items, p, end)
  }

  method FindShadowed(items: seq<Item>, start: nat, end: nat) returns (toRemove: set<nat>)
    requires start <= end <= |items| && IsRun(items[start..end])
    ensures toRemove == Shadowed(items, start, end)
    ensures KeepLast(items[start..end]) == Without(items[start..end], toRemove, start)
  {
    var seen: map<string, nat> := map[];
    toRemove := {};
    for idx := start to end
      invariant forall id :: id in seen ==>
        start <= seen[id] < idx && items[seen[id]].ToolResult? && items[seen[id]].toolCallId == id
      invariant forall p :: start <= p < idx ==>
        items[p].ToolResult? && items[p].toolCallId in seen && p <= seen[items[p].toolCallId]
      invariant toRemove == set p | start <= p < idx && p != seen[items[p].toolCallId]
    {
      assert items[idx] == items[start..end][idx - start];
      var id := items[idx].toolCallId;
      if id in seen {
        toRemove := toRemove + {seen[id]};
      }
      seen := seen[id := idx];
    }
    forall p | start <= p < end ensures p in toRemove <==> ShadowedBy(items, p, end) {
      if p != seen[items[p].toolCallId] {
        assert items[seen[items[p].toolCallId]].toolCallId == items[p].toolCallId;
      }
    }
    KeepLastIsWithout(items, start, end, toRemove);
  }

  lemma {:induction false} WithoutSplit<T>(s: seq<T>, drop: set<nat>, base: nat, m: nat)
    requires m in drop && base <= m < base + |s|
    requires forall d :: d in drop ==> d <= m
    ensures Without(s, drop, base) == Without(s[..m - base], drop - {m}, base) + s[m - base + 1..]
  {
    if m == base {
      WithoutNone(s[1..], drop, base + 1);
    } else {
      WithoutSplit(s[1..], drop, base + 1, m);
      assert s[..m - base][1..] == s[1..][..m - base - 1];
      assert s[1..][m - base - 1 + 1..] == s[m - base + 1..];
    }
  }

  lemma {:induction false} RemoveLargest(items: seq<Item>, start: nat, stop: nat, rest: set<nat>, m: nat)
    requires start <= m < stop <= |items| && m in rest
    requires forall d :: d in rest ==> start <= d <= m
    ensures var after := items[..m] + items[m + 1..];
            && after[..start] == items[..start]
            && Without(after[start..m], rest - {m}, start) + after[m..] ==
               Without(items[start..stop], rest, start) + items[stop..]
  {
    var run, after := items[start..stop], items[..m] + items[m + 1..];
    WithoutSplit(run, rest, start, m);
    assert run[..m - start] == items[start..m] == after[start..m];
    assert run[m - start + 1..] + items[stop..] == items[m + 1..] == after[m..];
  }

  lemma {:induction false} KeepLastIsWithout(items: seq<Item>, start: nat, end: nat, drop: set<nat>)
    requires start <= end <= |items| && IsRun(items[start..end])
    requires forall p :: start <= p < end ==> (p in drop <==> ShadowedBy(items, p, end))
    ensures KeepLast(items[start..end]) == Without(items[start..end], drop, start)
    decreases end - start
  {
    if start < end {
      var run := items[start..end];
      assert run[1..] == items[start + 1..end];
      assert forall k :: start < k < end ==> items[k] == run[1..][k - start - 1];
      KeepLastIsWithout(items, start + 1, end, drop);
      assert HasId(run[1..], run[0].toolCallId) <==> start in drop;
    }
  }

  function Largest(s: set<nat>): (m: nat)
    requires s != {}
    ensures m in s && forall x :: x in s ==> x <= m
  {
    LargestExists(s);
    var m :| m in s && forall x :: x in s ==> x <= m;
    m
  }

  lemma {:induction false} LargestExists(s: set<nat>)
    requires s != {}
    ensures exists m :: m in s && forall x :: x in s ==> x <= m
  {
    var x :| x in s;
    if s != {x} {
      LargestExists(s - {x});
      var m :| m in s - {x} && forall y :: y in s - {x} ==> y <= m;
      var best := if x < m then m else x;
      assert best in s && forall y :: y in s ==> y == x || y in s - {x};
    }
  }

  lemma {:induction false} DedupedSkip(items: seq<Item>, i: nat)
    requires i < |items| && !(items[i].Assistant? && items[i].toolCalls != [])
    ensures items[..i] + Deduped(items[i..]) == items[..i + 1] + Deduped(items[i + 1..])
  {
    hide Deduped, Backfilled;
    PassesOver(items[i..]);
    assert items[i..][1..] == items[i + 1..];
    MovesOver(items[..i], items[i], items[..i + 1], Deduped(items[i + 1..]));
  }

  lemma {:induction false} MovesOver(prefix: seq<Item>, h: Item, prefix': seq<Item>, tail: seq<Item>)
    requires prefix' == prefix + [h]
    ensures prefix + ([h] + tail) == prefix' + tail
  {}

  lemma {:induction false} DedupedFrom(items: seq<Item>, i: nat, end: nat)
    requires i < end <= |items| && items[i].Assistant? && items[i].toolCalls != []
    requires IsRun(items[i + 1..end]) && CleanStart(items[end..])
    ensures Deduped(items[i..]) == [items[i]] + KeepLast(items[i + 1..end]) + Deduped(items[end..])
  {
    assert items[i..] == [items[i]] + items[i + 1..end] + items[end..];
    DedupedBlock(items[i], items[i + 1..end], items[end..]);
  }

  /** Looking at a block again after its duplicates are gone changes nothing. */
  lemma {:induction false} DedupedAgain(before: seq<Item>, after: seq<Item>, i: nat, end: nat)
    requires i < end <= |before| && before[i].Assistant? && before[i].toolCalls != []
    requires IsRun(before[i + 1..end]) && CleanStart(before[end..])
    requires after == before[..i + 1] + (KeepLast(before[i + 1..end]) + before[end..])
    ensures after[..i] == before[..i] && Deduped(after[i..]) == Deduped(before[i..])
  {
    hide Deduped, KeepLast, CleanStart, IsRun, HasId, DistinctIds;
    var h, run, rest := before[i], before[i + 1..end], before[end..];
    var once := KeepLast(run);
    DedupedFrom(before, i, end);
    KeepLastLaws(run);
    KeepLastLaws(once);
    DedupedBlock(h, once, rest);
    AfterBlock(before[..i], h, before[..i + 1], once + rest);
    assert after[i..] == [h] + (once + rest) == [h] + once + rest;
  }

  lemma {:induction false} AfterBlock(prefix: seq<Item>, h: Item, prefix': seq<Item>, tail: seq<Item>)
    requires prefix' == prefix + [h]
    ensures (prefix' + tail)[..|prefix|] == prefix && (prefix' + tail)[|prefix|..] == [h] + tail
  {}

  // ------------------------------------------------------------- dangling calls

  /** All insertions made, last position first. */
  ghost function Spliced(items: seq<Item>, repairs: seq<(nat, seq<Item>)>): seq<Item>
    requires forall k :: 0 <= k < |repairs| ==> repairs[k].0 <= |items|
    decreases |repairs|
  {
    if repairs == [] then items
    else
      var (at, synthetic) := repairs[|repairs| - 1];
      Spliced(items[..at] + synthetic + items[at..], repairs[..|repairs| - 1])
  }

  function SplicedCount(repairs: seq<(nat, seq<Item>)>): nat {
    if repairs == [] then 0
    else |repairs[|repairs| - 1].1| + SplicedCount(repairs[..|repairs| - 1])
  }

  lemma {:induction false} NoRepairs(items: seq<Item>)
    ensures Spliced(items[..0], []) + Backfilled(items[0..]) == Backfilled(items)
  {
    hide Backfilled;
    assert items[0..] == items && items[..0] == [];
  }

  lemma {:induction false} SplicedLength(items: seq<Item>, repairs: seq<(nat, seq<Item>)>)
    requires forall k :: 0 <= k < |repairs| ==> repairs[k].0 <= |items|
    ensures |Spliced(items, repairs)| == |items| + SplicedCount(repairs)
    decreases |repairs|
  {
    if repairs != [] {
      var (at, synthetic) := repairs[|repairs| - 1];
      SplicedLength(items[..at] + synthetic + items[at..], repairs[..|repairs| - 1]);
    }
  }

  lemma {:induction false} SplicedAppend(x: seq<Item>, y: seq<Item>, repairs: seq<(nat, seq<Item>)>)
    requires forall k :: 0 <= k < |repairs| ==> repairs[k].0 <= |x|
    ensures Spliced(x + y, repairs) == Spliced(x, repairs) + y
    decreases |repairs|
  {
    if repairs != [] {
      var (at, synthetic) := repairs[|repairs| - 1];
      var x' := x[..at] + synthetic + x[at..];
      assert (x + y)[..at] + synthetic + (x + y)[at..] == x' + y;
      SplicedAppend(x', y, repairs[..|repairs| - 1]);
    }
  }

  lemma {:induction false} BackfilledSkip(items: seq<Item>, i: nat, repairs: seq<(nat, seq<Item>)>)
    requires i < |items| && !(items[i].Assistant? && items[i].toolCalls != [])
    requires forall k :: 0 <= k < |repairs| ==> repairs[k].0 <= i
    ensures Spliced(items[..i + 1], repairs) + Backfilled(items[i + 1..]) ==
            Spliced(items[..i], repairs) + Backfilled(items[i..])
  {
    hide Deduped, Backfilled, Spliced;
    SplicedAppend(items[..i], [items[i]], repairs);
    assert items[..i + 1] == items[..i] + [items[i]];
    PassesOver(items[i..]);
    assert items[i..][1..] == items[i + 1..];
    MovesOver(Spliced(items[..i], repairs), items[i], Spliced(items[..i + 1], repairs), Backfilled(items[i + 1..]));
  }

  lemma {:induction false} BackfilledFrom(items: seq<Item>, i: nat, end: nat, repairs: seq<(nat, seq<Item>)>)
    requires i < end <= |items| && items[i].Assistant?
    requires IsRun(items[i + 1..end]) && CleanStart(items[end..])
    requires forall k :: 0 <= k < |repairs| ==> repairs[k].0 <= i
    ensures var synthetic := Missing(items[i].toolCalls, items[i + 1..end]);
            var repairs' := if synthetic == [] then repairs else repairs + [(end, synthetic)];
            Spliced(items[..end], repairs') + Backfilled(items[end..]) ==
            Spliced(items[..i], repairs) + Backfilled(items[i..])
  {
    hide Missing, Backfilled, CleanStart, IsRun, Spliced;
    var h, run, rest, x := items[i], items[i + 1..end], items[end..], items[..i];
    var synthetic, block := Missing(h.toolCalls, run), [h] + run;
    BackfilledBlock(h, run, rest);
    SplicedBlock(x, block, synthetic, repairs);
    BlockAt(items, i, end);
    Regroup(Spliced(x, repairs), h, run, synthetic, Backfilled(rest));
  }

  lemma {:induction false} BlockAt(items: seq<Item>, i: nat, end: nat)
    requires i < end <= |items|
    ensures items[i..] == [items[i]] + items[i + 1..end] + items[end..]
    ensures items[..end] == items[..i] + ([items[i]] + items[i + 1..end])
  {}

  lemma {:induction false} Regroup(x: seq<Item>, h: Item, run: seq<Item>, synthetic: seq<Item>, tail: seq<Item>)
    ensures x + (([h] + run) + synthetic) + tail == x + ([h] + (run + synthetic) + tail)
  {}

  lemma {:induction false} SplicedBlock(x: seq<Item>, block: seq<Item>, synthetic: seq<Item>,
                                        repairs: seq<(nat, seq<Item>)>)
    requires forall k :: 0 <= k < |repairs| ==> repairs[k].0 <= |x|
    ensures var repairs' := if synthetic == [] then repairs else repairs + [(|x| + |block|, synthetic)];
            Spliced(x + block, repairs') == Spliced(x, repairs) + (block + synthetic)
  {
    var y := x + block;
    if synthetic == [] {
      SplicedAppend(x, block, repairs);
      assert block + [] == block;
    } else {
      var repairs' := repairs + [(|y|, synthetic)];
      assert repairs'[..|repairs|] == repairs;
      assert y[..|y|] + synthetic + y[|y|..] == x + (block + synthetic);
      SplicedAppend(x, block + synthetic, repairs);
    }
  }
}
