/**
 What repair makes of each assistant's turn, said by position and without the passes:
 which results stay, which stand-ins are added, and which ids are reported.
 */
module RepairLaws {
  import opened Conversation
  import opened Positions
  import opened ToolPairing
  import opened PairingLaws

  // ---------------------------------------------------------------- one turn

  /** Result `k` of the run is declared by the head and is the last with its id. */
  ghost predicate Stays(h: Item, run: seq<Item>, k: nat)
    requires k < |run| && IsRun(run)
  {
    && h.DeclaresCall(run[k].toolCallId)
    && forall j :: k < j < |run| ==> run[j].toolCallId != run[k].toolCallId
  }

  ghost function StayingFrom(h: Item, run: seq<Item>, from: nat): set<nat>
    requires IsRun(run)
  {
    set k: nat | from <= k < |run| && Stays(h, run, k)
  }

  ghost predicate Unanswered(call: ToolCall, run: seq<Item>)
    requires IsRun(run)
  {
    forall j :: 0 <= j < |run| ==> run[j].toolCallId != call.id
  }

  /** The result that stands in for a call that was never answered. */
  ghost function StandIn(call: ToolCall): Item {
    ToolResult(call.id,
               "Tool execution was halted by the harness (history_repair); the tool `" + call.name
               + "` was not executed.", [])
  }

  ghost function AllStandIns(calls: seq<ToolCall>): seq<Item> {
    seq(|calls|, k requires 0 <= k < |calls| => StandIn(calls[k]))
  }

  ghost function UnansweredFrom(calls: seq<ToolCall>, run: seq<Item>, from: nat): set<nat>
    requires IsRun(run)
  {
    set k: nat | from <= k < |calls| && Unanswered(calls[k], run)
  }

  /** One stand-in for each call the run does not answer, in call order. */
  ghost predicate StandIns(calls: seq<ToolCall>, run: seq<Item>, added: seq<Item>)
    requires IsRun(run)
  {
    Picks(AllStandIns(calls), UnansweredFrom(calls, run, 0), added)
  }

  lemma {:induction false} MissingFrom(calls: seq<ToolCall>, from: nat, run: seq<Item>)
    requires from <= |calls| && IsRun(run)
    ensures Picks(AllStandIns(calls), UnansweredFrom(calls, run, from), Missing(calls[from..], run))
    decreases |calls| - from
  {
    if from == |calls| {
      PicksNone(AllStandIns(calls), UnansweredFrom(calls, run, from));
    } else {
      MissingFrom(calls, from + 1, run);
      assert calls[from..][1..] == calls[from + 1..];
      MissingStep(calls[from..], run);
      hide Missing, Unanswered, StandIn, Picks;
      var added, later := Missing(calls[from + 1..], run), UnansweredFrom(calls, run, from + 1);
      if Unanswered(calls[from], run) {
        PicksInFront(AllStandIns(calls), from, later, added, UnansweredFrom(calls, run, from));
      } else {
        PicksSame(AllStandIns(calls), later, added, UnansweredFrom(calls, run, from));
      }
    }
  }

  lemma {:induction false} MissingStep(calls: seq<ToolCall>, run: seq<Item>)
    requires calls != [] && IsRun(run)
    ensures Missing(calls, run)
         == (if Unanswered(calls[0], run) then [StandIn(calls[0])] else []) + Missing(calls[1..], run)
  {}

  lemma {:induction false} MissingStandsIn(calls: seq<ToolCall>, run: seq<Item>)
    requires IsRun(run)
    ensures StandIns(calls, run, Missing(calls, run))
  {
    MissingFrom(calls, 0, run);
    assert calls[0..] == calls;
  }

  // ------------------------------------------------------------ what stays of a run

  lemma {:induction false} KeptFrom(h: Item, run: seq<Item>, from: nat)
    requires from <= |run| && IsRun(run)
    ensures Picks(run, StayingFrom(h, run, from), KeepOwned(KeepLast(run[from..]), HeadIds(h)))
    decreases |run| - from
  {
    if from == |run| {
      PicksNone(run, StayingFrom(h, run, from));
    } else {
      KeptFrom(h, run, from + 1);
      KeptStep(h, run, from);
      hide KeepOwned, KeepLast, Stays, HeadIds, Picks, IsRun;
      var kept, later := KeepOwned(KeepLast(run[from + 1..]), HeadIds(h)), StayingFrom(h, run, from + 1);
      if Stays(h, run, from) {
        PicksInFront(run, from, later, kept, StayingFrom(h, run, from));
      } else {
        PicksSame(run, later, kept, StayingFrom(h, run, from));
      }
    }
  }

  lemma {:induction false} KeptStep(h: Item, run: seq<Item>, from: nat)
    requires from < |run| && IsRun(run)
    ensures KeepOwned(KeepLast(run[from..]), HeadIds(h))
         == (if Stays(h, run, from) then [run[from]] else []) + KeepOwned(KeepLast(run[from + 1..]), HeadIds(h))
  {
    var tail, rest := run[from..], run[from + 1..];
    assert tail[1..] == rest && tail[0] == run[from];
    assert HasId(rest, run[from].toolCallId) <==>
           !forall j :: from < j < |run| ==> run[j].toolCallId != run[from].toolCallId;
  }

  // ---------------------------------------------------------------- whole histories

  /** Repair works turn by turn. */
  lemma {:induction false} RepairedConcat(a: seq<Item>, b: seq<Item>)
    requires CleanStart(b)
    ensures Repaired(a + b) == Repaired(a) + Repaired(b)
    decreases |a|
  {
    var lead, run, rest := Decompose(a);
    if |lead| >= |a| {
      NothingRepaired();
      hide Repaired;
      RepairedLead(lead, b);
      RepairedLead(lead, []);
      assert lead + [] == lead;
    } else {
      var h, longer := a[|lead|], rest + b;
      RepairedConcat(rest, b);
      assert CleanStart(longer);
      Regrouped(lead, h, run, rest, b);
      hide Repaired, RepairedRun, IsRun, CleanStart;
      TurnThenRest(a, lead, h, run, rest);
      TurnThenRest(a + b, lead, h, run, longer);
      Associated([h] + RepairedRun(h, run), Repaired(rest), Repaired(b));
    }
  }

  lemma {:induction false} Associated(a: seq<Item>, b: seq<Item>, c: seq<Item>)
    ensures a + (b + c) == a + b + c
  {}

  lemma {:induction false} TurnThenRest(items: seq<Item>, lead: seq<Item>, h: Item, run: seq<Item>, rest: seq<Item>)
    requires IsRun(lead) && !h.ToolResult? && IsRun(run) && CleanStart(rest)
    requires items == lead + ([h] + run + rest)
    ensures Repaired(items) == [h] + RepairedRun(h, run) + Repaired(rest)
  {
    hide Repaired, RepairedRun, IsRun;
    RepairedLead(lead, [h] + run + rest);
    RepairedBlock(h, run, rest);
  }

  lemma {:induction false} NothingRepaired()
    ensures Repaired([]) == []
  {}

  lemma {:induction false} Regrouped(lead: seq<Item>, h: Item, run: seq<Item>, rest: seq<Item>, b: seq<Item>)
    ensures lead + ([h] + run + rest) + b == lead + ([h] + run + (rest + b))
  {
    assert [h] + run + (rest + b) == [h] + run + rest + b;
  }

  /** What becomes of a turn. */
  ghost predicate IsRepairedTurn(h: Item, run: seq<Item>, turn: seq<Item>)
    requires IsRun(run)
  {
    exists kept, added ::
      && IsRun(kept) && turn == [h] + kept + added && Picks(run, StayingFrom(h, run, 0), kept)
      && if h.Assistant? then StandIns(h.toolCalls, kept, added) else added == []
  }

  /**
   In the repaired history every turn stands where it stood: its first item, the last result
   for each id that this item declares, in order, and a stand-in naming its own call's tool
   for each call that has none, in call order. Results before the first turn are gone.
   */
  lemma {:induction false} RepairedTurnByTurn(before: seq<Item>, h: Item, run: seq<Item>, after: seq<Item>)
    requires !h.ToolResult? && IsRun(run) && CleanStart(after)
    ensures exists turn :: IsRepairedTurn(h, run, turn)
              && Repaired(before + ([h] + run + after)) == Repaired(before) + turn + Repaired(after)
    ensures Repaired(run + after) == Repaired(after)
  {
    var turn, items := [h] + RepairedRun(h, run), [h] + run + after;
    TurnIsRepaired(h, run);
    assert CleanStart(items);
    NoLead(items);
    hide Repaired, RepairedRun, IsRepairedTurn, IsRun, CleanStart;
    TurnThenRest(items, [], h, run, after);
    RepairedConcat(before, items);
    RepairedLead(run, after);
    Associated(Repaired(before), turn, Repaired(after));
  }

  lemma {:induction false} NoLead(items: seq<Item>)
    ensures items == [] + items && IsRun([])
  {}

  lemma {:induction false} TurnIsRepaired(h: Item, run: seq<Item>)
    requires IsRun(run)
    ensures IsRepairedTurn(h, run, [h] + RepairedRun(h, run))
  {
    KeptFrom(h, run, 0);
    assert run[0..] == run;
    hide KeepOwned, KeepLast, HeadIds, Picks, Missing;
    var kept := KeepOwned(KeepLast(run), HeadIds(h));
    var added := Backfill(h, kept);
    if h.Assistant? {
      MissingStandsIn(h.toolCalls, kept);
    }
    hide StandIns;
    assert [h] + (kept + added) == [h] + kept + added;
  }

  // ------------------------------------------------------------ the first pass alone

  /** The last result for each id, whoever declares it. */
  ghost function LastFrom(run: seq<Item>, from: nat): set<nat>
    requires IsRun(run)
  {
    set k: nat | from <= k < |run| && forall j :: k < j < |run| ==> run[j].toolCallId != run[k].toolCallId
  }

  lemma {:induction false} LastKept(run: seq<Item>, from: nat)
    requires from <= |run| && IsRun(run)
    ensures Picks(run, LastFrom(run, from), KeepLast(run[from..]))
    decreases |run| - from
  {
    if from == |run| {
      PicksNone(run, LastFrom(run, from));
    } else {
      LastKept(run, from + 1);
      LastStep(run, from);
      hide KeepLast, Picks, IsRun;
      var later, kept := LastFrom(run, from + 1), KeepLast(run[from + 1..]);
      if from in LastFrom(run, from) {
        PicksInFront(run, from, later, kept, LastFrom(run, from));
      } else {
        PicksSame(run, later, kept, LastFrom(run, from));
      }
    }
  }

  lemma {:induction false} LastStep(run: seq<Item>, from: nat)
    requires from < |run| && IsRun(run)
    ensures KeepLast(run[from..])
         == (if from in LastFrom(run, from) then [run[from]] else []) + KeepLast(run[from + 1..])
  {
    var tail, rest := run[from..], run[from + 1..];
    assert tail[1..] == rest && tail[0] == run[from];
    assert HasId(rest, run[from].toolCallId) <==>
           !forall j :: from < j < |run| ==> run[j].toolCallId != run[from].toolCallId;
  }

  lemma {:induction false} DedupedConcat(a: seq<Item>, b: seq<Item>)
    requires CleanStart(b)
    ensures Deduped(a + b) == Deduped(a) + Deduped(b)
    decreases |a|
  {
    var lead, run, rest := Decompose(a);
    if |lead| >= |a| {
      DedupedLead(lead, b);
      DedupedLead(lead, []);
      assert lead + [] == lead && Deduped([]) == [];
    } else {
      var h, longer := a[|lead|], rest + b;
      DedupedConcat(rest, b);
      assert CleanStart(longer);
      Regrouped(lead, h, run, rest, b);
      hide Deduped, KeepLast, IsRun, CleanStart;
      DedupedTurnThenRest(a, lead, h, run, rest);
      DedupedTurnThenRest(a + b, lead, h, run, longer);
      Associated(lead + ([h] + DedupedRun(h, run)), Deduped(rest), Deduped(b));
    }
  }

  ghost function DedupedRun(h: Item, run: seq<Item>): seq<Item>
    requires IsRun(run)
  {
    if h.Assistant? && h.toolCalls != [] then KeepLast(run) else run
  }

  lemma {:induction false} DedupedTurnThenRest(items: seq<Item>, lead: seq<Item>, h: Item, run: seq<Item>,
                                               rest: seq<Item>)
    requires IsRun(lead) && !h.ToolResult? && IsRun(run) && CleanStart(rest)
    requires items == lead + ([h] + run + rest)
    ensures Deduped(items) == lead + ([h] + DedupedRun(h, run)) + Deduped(rest)
  {
    hide Deduped, KeepLast, IsRun;
    DedupedLead(lead, [h] + run + rest);
    DedupedBlock(h, run, rest);
    Associated(lead, [h] + DedupedRun(h, run), Deduped(rest));
  }

  /** The first pass keeps, in the run of an assistant with calls, the last result for each id; all else as it is. */
  lemma {:induction false} DedupedTurnByTurn(before: seq<Item>, h: Item, run: seq<Item>, after: seq<Item>)
    requires !h.ToolResult? && IsRun(run) && CleanStart(after)
    ensures exists kept ::
              && (if h.Assistant? && h.toolCalls != [] then Picks(run, LastFrom(run, 0), kept) else kept == run)
              && Deduped(before + ([h] + run + after)) == Deduped(before) + ([h] + kept) + Deduped(after)
    ensures Deduped(run + after) == run + Deduped(after)
  {
    var kept, items := DedupedRun(h, run), [h] + run + after;
    LastKept(run, 0);
    assert run[0..] == run && CleanStart(items);
    NoLead(items);
    DedupedLead(run, after);
    hide Deduped, KeepLast, IsRun, CleanStart, Picks;
    DedupedTurnThenRest(items, [], h, run, after);
    DedupedConcat(before, items);
    assert [] + ([h] + kept) == [h] + kept;
    Associated(Deduped(before), [h] + kept, Deduped(after));
  }

  // ------------------------------------------------------------- the last pass alone

  lemma {:induction false} BackfilledConcat(a: seq<Item>, b: seq<Item>)
    requires CleanStart(b)
    ensures Backfilled(a + b) == Backfilled(a) + Backfilled(b)
    decreases |a|
  {
    var lead, run, rest := Decompose(a);
    if |lead| >= |a| {
      BackfilledLead(lead, b);
      BackfilledLead(lead, []);
      assert lead + [] == lead && Backfilled([]) == [];
    } else {
      var h, longer := a[|lead|], rest + b;
      BackfilledConcat(rest, b);
      assert CleanStart(longer);
      Regrouped(lead, h, run, rest, b);
      hide Backfilled, Backfill, IsRun, CleanStart;
      BackfilledTurnThenRest(a, lead, h, run, rest);
      BackfilledTurnThenRest(a + b, lead, h, run, longer);
      Associated(lead + ([h] + (run + Backfill(h, run))), Backfilled(rest), Backfilled(b));
    }
  }

  lemma {:induction false} BackfilledTurnThenRest(items: seq<Item>, lead: seq<Item>, h: Item, run: seq<Item>,
                                                  rest: seq<Item>)
    requires IsRun(lead) && !h.ToolResult? && IsRun(run) && CleanStart(rest)
    requires items == lead + ([h] + run + rest)
    ensures Backfilled(items) == lead + ([h] + (run + Backfill(h, run))) + Backfilled(rest)
  {
    hide Backfilled, Backfill, IsRun;
    BackfilledLead(lead, [h] + run + rest);
    BackfilledBlock(h, run, rest);
    Associated(lead, [h] + (run + Backfill(h, run)), Backfilled(rest));
  }

  /** The last pass adds the stand-ins behind each assistant's run and changes nothing else. */
  lemma {:induction false} BackfilledTurnByTurn(before: seq<Item>, h: Item, run: seq<Item>, after: seq<Item>)
    requires !h.ToolResult? && IsRun(run) && CleanStart(after)
    ensures exists added ::
              && (if h.Assistant? then StandIns(h.toolCalls, run, added) else added == [])
              && Backfilled(before + ([h] + run + after))
                 == Backfilled(before) + ([h] + (run + added)) + Backfilled(after)
    ensures Backfilled(run + after) == run + Backfilled(after)
  {
    var added, items := Backfill(h, run), [h] + run + after;
    if h.Assistant? {
      MissingStandsIn(h.toolCalls, run);
    }
    assert CleanStart(items);
    NoLead(items);
    BackfilledLead(run, after);
    hide Backfilled, Backfill, IsRun, CleanStart, StandIns;
    BackfilledTurnThenRest(items, [], h, run, after);
    BackfilledConcat(before, items);
    assert [] + ([h] + (run + added)) == [h] + (run + added);
    Associated(Backfilled(before), [h] + (run + added), Backfilled(after));
  }

  /** Dropping by number keeps exactly the other positions, in order. */
  lemma {:induction false} WithoutKeepsTheRest<T>(s: seq<T>, drop: set<nat>, kept: set<nat>, from: nat)
    requires from <= |s| && forall k: nat :: k < |s| ==> (k in kept <==> from <= k && k !in drop)
    ensures Picks(s, kept, Without(s[from..], drop, from))
    decreases |s| - from
  {
    if from == |s| {
      PicksNone(s, kept);
    } else {
      var later := set k: nat | from < k < |s| && k !in drop;
      assert s[from..][1..] == s[from + 1..];
      WithoutKeepsTheRest(s, drop, later, from + 1);
      hide Picks;
      var rest := Without(s[from + 1..], drop, from + 1);
      if from in drop {
        PicksSame(s, later, rest, kept);
      } else {
        PicksInFront(s, from, later, rest, kept);
      }
    }
  }

  // ----------------------------------------------------------------- what is reported

  /** The ids declared by the head of the run that position `n` follows or is in. */
  ghost function IdsAt(items: seq<Item>, n: nat): set<string>
    requires n <= |items|
  {
    if n == 0 || Head(items, n - 1) < 0 then {} else HeadIds(items[Head(items, n - 1)])
  }

  ghost function ResultIds(items: seq<Item>): seq<string> {
    seq(|items|, k requires 0 <= k < |items| => if items[k].ToolResult? then items[k].toolCallId else "")
  }

  ghost function StrayFrom(items: seq<Item>, from: nat): set<nat> {
    set k: nat | from <= k < |items| && items[k].ToolResult? && !Owned(items, k)
  }

  lemma {:induction false} StrayIdsFrom(items: seq<Item>, from: nat)
    requires from <= |items|
    ensures Picks(ResultIds(items), StrayFrom(items, from), DisplacedIds(items[from..], IdsAt(items, from)))
    decreases |items| - from
  {
    if from == |items| {
      PicksNone(ResultIds(items), StrayFrom(items, from));
    } else {
      StrayIdsFrom(items, from + 1);
      assert items[from..][1..] == items[from + 1..];
      StrayStep(items, from);
      hide DisplacedIds, Picks, IdsAt, Owned;
      var ids, later := DisplacedIds(items[from + 1..], IdsAt(items, from + 1)), StrayFrom(items, from + 1);
      if items[from].ToolResult? && !Owned(items, from) {
        PicksInFront(ResultIds(items), from, later, ids, StrayFrom(items, from));
      } else {
        PicksSame(ResultIds(items), later, ids, StrayFrom(items, from));
      }
    }
  }

  lemma {:induction false} StrayStep(items: seq<Item>, from: nat)
    requires from < |items|
    ensures DisplacedIds(items[from..], IdsAt(items, from))
         == (if items[from].ToolResult? && !Owned(items, from) then [items[from].toolCallId] else [])
            + DisplacedIds(items[from + 1..], IdsAt(items, from + 1))
  {
    assert items[from..][1..] == items[from + 1..];
  }

  /** Stripping reports the id of each result that no head declares, in order. */
  lemma {:induction false} StrippedIdsByPosition(items: seq<Item>)
    ensures Picks(ResultIds(items), DroppedByStrip(items), DisplacedIds(items, {}))
  {
    StrayIdsFrom(items, 0);
    assert items[0..] == items;
    hide Picks, DisplacedIds;
    PicksSame(ResultIds(items), StrayFrom(items, 0), DisplacedIds(items, {}), DroppedByStrip(items));
  }
}
