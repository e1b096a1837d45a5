/**
 The lenient rule of the compaction pipeline, that every tool result has a matching
 call somewhere before it (`validate_compacted_history`,
 `sanitize_compacted_history`), and how it relates to the strict contiguous-run rule.
 */
module CompactedHistory {
  import opened Conversation
  import opened ToolPairing
  import opened PairingLaws

  /** Ids of the results with no earlier declaration, given the ids already declared. */
  function OrphanIds(items: seq<Item>, seen: set<string>): seq<string> {
    if items == [] then []
    else match items[0]
      case Assistant(_, calls, _) => OrphanIds(items[1..], seen + CallIds(calls))
      case ToolResult(id, _, _) => (if id in seen then [] else [id]) + OrphanIds(items[1..], seen)
      case _ => OrphanIds(items[1..], seen)
  }

  function Sanitized(items: seq<Item>, seen: set<string>): seq<Item> {
    if items == [] then []
    else match items[0]
      case Assistant(_, calls, _) => [items[0]] + Sanitized(items[1..], seen + CallIds(calls))
      case ToolResult(id, _, _) => (if id in seen then [items[0]] else []) + Sanitized(items[1..], seen)
      case _ => [items[0]] + Sanitized(items[1..], seen)
  }

  method ValidateCompactedHistory(items: seq<Item>) returns (invalidIds: seq<string>)
    ensures invalidIds == OrphanIds(items, {})
  {
    var seenIds: set<string> := {};
    invalidIds := [];
    for i := 0 to |items|
      invariant invalidIds + OrphanIds(items[i..], seenIds) == OrphanIds(items, {})
    {
      assert items[i..][1..] == items[i + 1..];
      match items[i] {
        case Assistant(_, calls, _) => seenIds := seenIds + CallIds(calls);
        case ToolResult(id, _, _) =>
          if id !in seenIds {
            invalidIds := invalidIds + [id];
          }
        case _ =>
      }
    }
    assert items[|items|..] == [];
  }

  method SanitizeCompactedHistory(items: seq<Item>) returns (sanitized: seq<Item>, strippedIds: seq<string>)
    ensures sanitized == Sanitized(items, {})
    ensures strippedIds == OrphanIds(items, {})
  {
    hide Sanitized, OrphanIds;
    var seenIds: set<string> := {};
    sanitized, strippedIds := [], [];
    for i := 0 to |items|
      invariant sanitized + Sanitized(items[i..], seenIds) == Sanitized(items, {})
      invariant strippedIds + OrphanIds(items[i..], seenIds) == OrphanIds(items, {})
    {
      SanitizeStep(items, i, seenIds);
      match items[i] {
        case Assistant(_, calls, _) =>
          seenIds := seenIds + CallIds(calls);
          sanitized := sanitized + [items[i]];
        case ToolResult(id, _, _) =>
          if id in seenIds {
            sanitized := sanitized + [items[i]];
          } else {
            strippedIds := strippedIds + [id];
          }
        case _ =>
          sanitized := sanitized + [items[i]];
      }
    }
    assert items[|items|..] == [];
    SanitizeNothing(seenIds);
  }

  lemma {:induction false} SanitizeNothing(seen: set<string>)
    ensures Sanitized([], seen) == [] && OrphanIds([], seen) == []
  {}

  lemma {:induction false} SanitizeStep(items: seq<Item>, i: nat, seen: set<string>)
    requires i < |items|
    ensures var item := items[i];
            var orphan := item.ToolResult? && item.toolCallId !in seen;
            var seen' := if item.Assistant? then seen + CallIds(item.toolCalls) else seen;
            && Sanitized(items[i..], seen) == (if orphan then [] else [item]) + Sanitized(items[i + 1..], seen')
            && OrphanIds(items[i..], seen)
               == (if orphan then [item.toolCallId] else []) + OrphanIds(items[i + 1..], seen')
  {
    assert items[i..][1..] == items[i + 1..];
  }

  // ------------------------------------------------------------ what it means

  /** Some assistant before `j` declares the id of result `j`. */
  ghost predicate CalledBefore(items: seq<Item>, j: nat)
    requires j < |items|
  {
    items[j].ToolResult? && exists i :: 0 <= i < j && items[i].DeclaresCall(items[j].toolCallId)
  }

  /** The provider invariant that validation checks. */
  ghost predicate EveryResultCalled(items: seq<Item>) {
    forall j :: 0 <= j < |items| && items[j].ToolResult? ==> CalledBefore(items, j)
  }

  ghost function Orphans(items: seq<Item>): set<nat> {
    set j | 0 <= j < |items| && items[j].ToolResult? && !CalledBefore(items, j)
  }

  ghost predicate SeenBefore(items: seq<Item>, i: nat, seen: set<string>) {
    i <= |items| && forall id :: id in seen <==> exists k :: 0 <= k < i && items[k].DeclaresCall(id)
  }

  /** `OrphanIds` lists the ids at the orphan positions, in order; `Sanitized` drops those positions. */
  lemma {:induction false} ScanMeaning(items: seq<Item>, i: nat, seen: set<string>)
    requires SeenBefore(items, i, seen)
    ensures Sanitized(items[i..], seen) == Without(items[i..], Orphans(items), i)
    ensures OrphanIds(items[i..], seen) == IdsAt(items[i..], Orphans(items), i)
    decreases |items| - i
  {
    if i < |items| {
      var item := items[i];
      var seen' := if item.Assistant? then seen + CallIds(item.toolCalls) else seen;
      SanitizeStep(items, i, seen);
      assert items[i..][1..] == items[i + 1..];
      assert SeenBefore(items, i + 1, seen') by {
        forall id ensures id in seen' <==> exists k :: 0 <= k < i + 1 && items[k].DeclaresCall(id) {
          assert id in seen' <==> id in seen || item.DeclaresCall(id);
        }
      }
      ScanMeaning(items, i + 1, seen');
    }
  }

  /** Ids of the results of `s` (numbered from `base`) at the positions in `at`. */
  ghost function IdsAt(s: seq<Item>, at: set<nat>, base: nat): seq<string> {
    if s == [] then []
    else (if base in at && s[0].ToolResult? then [s[0].toolCallId] else []) + IdsAt(s[1..], at, base + 1)
  }

  /**
   Validation returns the ids of exactly the results that no earlier assistant
   declares, in order, and sanitizing removes exactly those results.
   */
  lemma {:induction false} OrphansFound(items: seq<Item>)
    ensures OrphanIds(items, {}) == IdsAt(items, Orphans(items), 0)
    ensures Sanitized(items, {}) == Without(items, Orphans(items), 0)
    ensures OrphanIds(items, {}) == [] <==> EveryResultCalled(items)
  {
    ScanMeaning(items, 0, {});
    assert items[0..] == items;
    NoIdsIff(items, Orphans(items), 0);
    assert Orphans(items) == {} <==> EveryResultCalled(items) by {
      assert forall j :: j in Orphans(items) ==> items[j].ToolResult? && !CalledBefore(items, j);
      assert forall j: nat :: j < |items| && items[j].ToolResult? && !CalledBefore(items, j) ==> j in Orphans(items);
    }
    if Orphans(items) != {} {
      var j :| j in Orphans(items);
      assert 0 <= j < 0 + |items|;
    }
  }

  lemma {:induction false} NoIdsIff(s: seq<Item>, at: set<nat>, base: nat)
    requires forall n: nat :: n in at && base <= n < base + |s| ==> s[n - base].ToolResult?
    ensures IdsAt(s, at, base) == [] <==> forall n: nat :: n in at ==> !(base <= n < base + |s|)
  {
    if s != [] {
      NoIdsIff(s[1..], at, base + 1);
      assert base in at ==> s[0].ToolResult?;
    }
  }

  // ------------------------------------------------- against the strict rule

  /** A result in its owner's run has its call before it. */
  lemma {:induction false} OwnedIsCalled(items: seq<Item>, j: nat)
    requires j < |items| && Owned(items, j)
    ensures CalledBefore(items, j)
  {
    assert items[Head(items, j)].DeclaresCall(items[j].toolCallId);
  }

  /** Whatever the strict pass keeps, the lenient one keeps too. */
  lemma {:induction false} StripIsStricter(items: seq<Item>)
    ensures Orphans(items) <= DroppedByStrip(items)
  {
    forall j | j in Orphans(items) ensures j in DroppedByStrip(items) {
      if Owned(items, j) {
        OwnedIsCalled(items, j);
      }
    }
  }

  lemma {:induction false} AllOwnedIsValid(items: seq<Item>)
    requires AllOwned(items)
    ensures EveryResultCalled(items)
  {
    forall j: nat | j < |items| && items[j].ToolResult? ensures CalledBefore(items, j) {
      OwnedIsCalled(items, j);
    }
  }

  /** The strict pass leaves a history that obeys the strict rule, and so passes validation. */
  lemma {:induction false} StrippedPassesValidation(items: seq<Item>)
    ensures AllOwned(Undisplaced(items, {}))
    ensures OrphanIds(Undisplaced(items, {}), {}) == []
    ensures Sanitized(Undisplaced(items, {}), {}) == Undisplaced(items, {})
  {
    var kept := Undisplaced(items, {});
    UndisplacedIsOwned(items);
    AllOwnedIsValid(kept);
    OrphansFound(kept);
    WithoutNone(kept, Orphans(kept), 0);
  }

  lemma {:induction false} UndisplacedIsOwned(items: seq<Item>)
    ensures AllOwned(Undisplaced(items, {}))
    decreases |items|
  {
    var lead, run, rest := Decompose(items);
    if |lead| >= |items| {
      assert lead + [] == lead;
      UndisplacedLead(lead, [], {});
      KeepOwnedNone(lead, {});
    } else {
      var h := items[|lead|];
      var kept := KeepOwned(run, HeadIds(h));
      UndisplacedIsOwned(rest);
      UndisplacedSplit(items, lead, h, run, rest);
      KeepOwnedLaws(run, HeadIds(h));
      assert forall id :: HasId(kept, id) ==> h.DeclaresCall(id);
      BlockRule(h, kept);
      PassesKeepCleanStart(rest);
      hide Undisplaced, AllOwned;
      RuleConcat([h] + kept, Undisplaced(rest, {}));
    }
  }

  /** Sanitizing first makes no difference to the strict pass. */
  lemma {:induction false} SanitizeThenStrip(items: seq<Item>, seen: set<string>, ids: set<string>)
    requires ids <= seen
    ensures Undisplaced(Sanitized(items, seen), ids) == Undisplaced(items, ids)
  {
    if items != [] {
      var h, t := items[0], items[1..];
      match h {
        case Assistant(_, calls, _) =>
          SanitizeThenStrip(t, seen + CallIds(calls), CallIds(calls));
          assert Sanitized(items, seen)[1..] == Sanitized(t, seen + CallIds(calls));
        case ToolResult(id, _, _) =>
          SanitizeThenStrip(t, seen, ids);
          if id in seen {
            assert Sanitized(items, seen)[1..] == Sanitized(t, seen);
          } else {
            assert Sanitized(items, seen) == Sanitized(t, seen);
          }
        case _ =>
          SanitizeThenStrip(t, seen, {});
          assert Sanitized(items, seen)[1..] == Sanitized(t, seen);
      }
    }
  }

  /** A repaired history passes validation unchanged. */
  lemma {:induction false} RepairedPassesValidation(items: seq<Item>)
    ensures OrphanIds(Repaired(items), {}) == [] && Sanitized(Repaired(items), {}) == Repaired(items)
  {
    var r := Repaired(items);
    RepairRestoresRule(items);
    AllOwnedIsValid(r);
    OrphansFound(r);
    WithoutNone(r, Orphans(r), 0);
  }
}
