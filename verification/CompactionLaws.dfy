/**
 What is captured and rebuilt, said by position in the conversation and without the
 functions that compute it.
 */
module CompactionLaws {
  import opened Common
  import opened Conversation
  import opened Positions
  import opened UserQuery
  import opened Compaction

  // ------------------------------------------------------------------- the tail

  ghost predicate Survives(item: Item) {
    item.Assistant? || item.ToolResult? || item.IsAgentMessage()
  }

  /** A result keeps its call's id and loses its output and images; everything else is kept as it is. */
  ghost function KeptForm(item: Item): Item {
    if item.ToolResult? then ToolResult(item.toolCallId, "Tool call omitted...", []) else item
  }

  ghost function KeptForms(items: seq<Item>): seq<Item> {
    seq(|items|, k requires 0 <= k < |items| => KeptForm(items[k]))
  }

  ghost function SurvivingFrom(items: seq<Item>, from: nat): set<nat> {
    set k: nat | from <= k < |items| && Survives(items[k])
  }

  /** The item at `k` is kept: it is of the work done after the last anchor, or is an agent message there. */
  ghost predicate InTail(items: seq<Item>, k: nat) {
    k < |items| && Survives(items[k]) && forall j :: k < j < |items| ==> !IsAnchor(items[j])
  }

  ghost function TailPositions(items: seq<Item>): set<nat> {
    set k: nat | k < |items| && InTail(items, k)
  }

  lemma {:induction false} WorkingTailFrom(items: seq<Item>, from: nat)
    requires from <= |items|
    ensures Picks(KeptForms(items), SurvivingFrom(items, from), WorkingTail(items[from..]))
    decreases |items| - from
  {
    if from == |items| {
      PicksNone(KeptForms(items), SurvivingFrom(items, from));
    } else {
      WorkingTailFrom(items, from + 1);
      assert items[from..][1..] == items[from + 1..];
      WorkingTailStep(items[from..]);
      hide WorkingTail, Survives, Picks;
      var kept, rest := SurvivingFrom(items, from), SurvivingFrom(items, from + 1);
      if Survives(items[from]) {
        PicksInFront(KeptForms(items), from, rest, WorkingTail(items[from + 1..]), kept);
      } else {
        PicksSame(KeptForms(items), rest, WorkingTail(items[from + 1..]), kept);
      }
    }
  }

  lemma {:induction false} WorkingTailStep(items: seq<Item>)
    requires items != []
    ensures WorkingTail(items)
         == (if Survives(items[0]) then [KeptForm(items[0])] else []) + WorkingTail(items[1..])
  {}

  /** The captured tail: exactly the surviving items with no human turn or agent message after them, in order. */
  lemma {:induction false} TailByPosition(conversation: seq<Item>)
    ensures Picks(KeptForms(conversation), TailPositions(conversation), SinceLastAnchor(conversation))
  {
    var start := TailStart(conversation);
    WorkingTailFrom(conversation, start);
    hide WorkingTail, Survives, TailStart, InTail, Picks;
    forall k: nat | k < |conversation|
      ensures k in TailPositions(conversation) <==> k in SurvivingFrom(conversation, start)
    {
      TailStartIff(conversation, k);
    }
    PicksSame(KeptForms(conversation), SurvivingFrom(conversation, start), SinceLastAnchor(conversation),
              TailPositions(conversation));
  }

  lemma {:induction false} TailStartIff(conversation: seq<Item>, k: nat)
    ensures InTail(conversation, k) <==>
            TailStart(conversation) <= k < |conversation| && Survives(conversation[k])
  {
    hide LastWhere, ExtractUserQuery, JoinedText, IsSyntheticQuery;
    match LastWhere(conversation, IsAnchor) {
      case None =>
      case Some(b) =>
        assert IsAnchor(conversation[b]);
        if k < |conversation| && Survives(conversation[k]) && k == b {
          assert conversation[b].IsAgentMessage();
        }
    }
  }

  // ---------------------------------------------------------------- the anchors

  ghost predicate LastAt(items: seq<Item>, p: Item -> bool, i: nat) {
    i < |items| && p(items[i]) && forall k :: i < k < |items| ==> !p(items[k])
  }

  ghost predicate Nowhere(items: seq<Item>, p: Item -> bool) {
    forall k :: 0 <= k < |items| ==> !p(items[k])
  }

  /** The captured query is that of the last human turn: its text parts, read without metadata. */
  lemma {:induction false} QueryOfLastHumanTurn(conversation: seq<Item>)
    ensures forall h: nat :: LastAt(conversation, IsRealUserTurn, h) ==>
              LastRealUserQuery(conversation) == Some(ExtractUserQuery(JoinedText(conversation[h].user.content)))
    ensures Nowhere(conversation, IsRealUserTurn) ==> LastRealUserQuery(conversation) == None
  {
    hide LastWhere, ExtractUserQuery, JoinedText, IsSyntheticQuery;
    forall h: nat | LastAt(conversation, IsRealUserTurn, h) ensures LastWhere(conversation, IsRealUserTurn) == Some(h) {
      LastWhereUnique(conversation, IsRealUserTurn, h);
    }
  }

  /** The captured agent message is the last one, and its place is told by the last human turn. */
  lemma {:induction false} LastAgentMessage(conversation: seq<Item>, a: nat)
    ensures var anchor := LatestAgentMessage(conversation);
            && (LastAt(conversation, FromAgent, a) ==>
                  && anchor.Some? && anchor.value.item == conversation[a]
                  && (anchor.value.position.Only? <==> Nowhere(conversation, IsRealUserTurn))
                  && (anchor.value.position.BeforeHuman? <==>
                      exists h :: a < h < |conversation| && IsRealUserTurn(conversation[h])))
            && (Nowhere(conversation, FromAgent) ==> anchor == None)
  {
    hide LastWhere, IsRealUserTurn;
    if LastAt(conversation, FromAgent, a) {
      LastWhereUnique(conversation, FromAgent, a);
    }
    if Nowhere(conversation, FromAgent) {
      LastWhereNone(conversation, FromAgent);
    }
  }

  // ------------------------------------------------------------------ compaction

  /** A compaction lays out what it captured, with the tail dropped. */
  lemma {:induction false} CompactedIsLaidOut(input: HistoryInput, generation: nat, destination: Option<string>,
                                              conversation: seq<Item>)
    ensures var kept := StateContext(generation, destination, LatestAgentMessage(conversation), [],
                                     LastRealUserQuery(conversation));
            LaidOut(Compacted(input, generation, destination, conversation), input, kept)
  {
    hide LaidOut, LastWhere, Preamble, Core, Closing, LatestAgentMessage, LastRealUserQuery, SinceLastAnchor, Rebuilt;
    TailHasNoNewAgent(conversation);
    RebuiltIsLaidOut(input, Captured(conversation, generation, destination).ForCompaction());
  }

  // -------------------------------------------------------------------- the text

  /** Text parts are joined by newlines and images are passed over. */
  lemma {:induction false} JoinedTextOfParts(a: seq<ContentPart>, b: seq<ContentPart>, text: string)
    ensures HasText(a) && HasText(b) ==> JoinedText(a + b) == JoinedText(a) + "\n" + JoinedText(b)
    ensures !HasText(a) ==> JoinedText(a + b) == JoinedText(b)
    ensures !HasText(b) ==> JoinedText(a + b) == JoinedText(a)
    ensures JoinedText([TextPart(text)]) == text && JoinedText([]) == ""
  {
    JoinedPieces(a, b);
    if !HasText(a) && !HasText(b) {
      NoTextIsEmpty(a);
      NoTextIsEmpty(b);
    }
    assert [TextPart(text)][1..] == [];
  }

  lemma {:induction false} JoinedPieces(a: seq<ContentPart>, b: seq<ContentPart>)
    ensures JoinedText(a + b) == if !HasText(a) then JoinedText(b) else if !HasText(b) then JoinedText(a)
                                 else JoinedText(a) + "\n" + JoinedText(b)
  {
    if a == [] {
      assert a + b == b;
    } else {
      var t := a[1..];
      assert (a + b)[1..] == t + b;
      JoinedPieces(t, b);
      HasTextParts(a[0], t);
      HasTextConcat(t, b);
      assert [a[0]] + t == a;
      if !HasText(t) && !HasText(b) {
        NoTextIsEmpty(t);
      }
    }
  }

  lemma {:induction false} HasTextParts(first: ContentPart, t: seq<ContentPart>)
    ensures HasText([first] + t) <==> first.TextPart? || HasText(t)
  {
    var s := [first] + t;
    if HasText(t) {
      var k :| 0 <= k < |t| && t[k].TextPart?;
      assert s[k + 1].TextPart?;
    }
    if first.TextPart? {
      assert s[0].TextPart?;
    }
  }

  lemma {:induction false} HasTextConcat(a: seq<ContentPart>, b: seq<ContentPart>)
    ensures HasText(a + b) <==> HasText(a) || HasText(b)
  {
    var s := a + b;
    if HasText(a) {
      var k :| 0 <= k < |a| && a[k].TextPart?;
      assert s[k].TextPart?;
    }
    if HasText(b) {
      var k :| 0 <= k < |b| && b[k].TextPart?;
      assert s[|a| + k].TextPart?;
    }
  }

  lemma {:induction false} NoTextIsEmpty(a: seq<ContentPart>)
    requires !HasText(a)
    ensures JoinedText(a) == ""
  {
    if a != [] {
      assert a[0].ImagePart?;
      NoTextIsEmpty(a[1..]);
    }
  }
}
