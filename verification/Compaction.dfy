/**
 Capturing what survives compaction and rebuilding the history from it
 (`CompactionStateContext::build` / `for_compaction`, the `extract_*` functions it
 calls, `build_compacted_history`).
 */
module Compaction {
  import opened Common
  import opened Conversation
  import opened UserQuery
  import opened SummaryFormat
  import opened CompactedHistory

  // ------------------------------------------------------------- what is captured

  /** Index of the last item satisfying `p` (`Iterator::rposition`). */
  function LastWhere(items: seq<Item>, p: Item -> bool): (r: Option<nat>)
    ensures r.Some? ==> r.value < |items| && p(items[r.value]) && forall k :: r.value < k < |items| ==> !p(items[k])
    ensures r.None? ==> forall k :: 0 <= k < |items| ==> !p(items[k])
  {
    if items == [] then None
    else if p(items[|items| - 1]) then Some(|items| - 1)
    else LastWhere(items[..|items| - 1], p)
  }

  predicate FromAgent(item: Item) { item.IsAgentMessage() }

  predicate IsAnchor(item: Item) { IsRealUserTurn(item) || item.IsAgentMessage() }

  datatype Position = Only | BeforeHuman | AfterHuman

  datatype Anchor = Anchor(item: Item, position: Position)

  function LatestAgentMessage(conversation: seq<Item>): Option<Anchor> {
    match LastWhere(conversation, FromAgent)
    case None => None
    case Some(a) =>
      var position := match LastWhere(conversation, IsRealUserTurn)
        case Some(h) => if a < h then BeforeHuman else AfterHuman
        case None => Only;
      Some(Anchor(conversation[a], position))
  }

  function LastRealUserQuery(conversation: seq<Item>): Option<string> {
    match LastWhere(conversation, IsRealUserTurn)
    case None => None
    case Some(h) => Some(ExtractUserQuery(JoinedText(conversation[h].user.content)))
  }

  /** Agent messages, assistant messages and placeholder results; everything else is dropped. */
  function WorkingTail(items: seq<Item>): seq<Item> {
    if items == [] then []
    else
      var rest := WorkingTail(items[1..]);
      match items[0]
      case Assistant(_, _, _) => [items[0]] + rest
      case ToolResult(id, _, _) => [ToolResult(id, "Tool call omitted...", [])] + rest
      case User(_) => if items[0].IsAgentMessage() then [items[0]] + rest else rest
      case _ => rest
  }

  function TailStart(conversation: seq<Item>): (start: nat)
    ensures start <= |conversation|
  {
    match LastWhere(conversation, IsAnchor)
    case None => 0
    case Some(b) => if conversation[b].IsAgentMessage() then b else b + 1
  }

  function SinceLastAnchor(conversation: seq<Item>): seq<Item> {
    WorkingTail(conversation[TailStart(conversation)..])
  }

  datatype StateContext = StateContext(
    cwdGeneration: nat,
    destinationInstructions: Option<string>,
    anchor: Option<Anchor>,
    recent: seq<Item>,
    lastUserQuery: Option<string>)
  {
    /** The working tail dropped, the anchor kept. */
    function ForCompaction(): StateContext {
      this.(anchor := if anchor.Some? then anchor else LatestAgentMessage(recent), recent := [])
    }
  }

  function Captured(conversation: seq<Item>, cwdGeneration: nat, destination: Option<string>): StateContext {
    StateContext(cwdGeneration, destination, LatestAgentMessage(conversation),
                 SinceLastAnchor(conversation), LastRealUserQuery(conversation))
  }

  // ------------------------------------------------------------------ rebuilding

  datatype HistoryInput = HistoryInput(
    systemMessage: Item,
    userPrefix: string,
    agentsReminder: Option<string>,
    summary: string,
    transcriptHint: Option<string>,
    systemReminder: Option<string>)

  function Meta(text: string): Item { PlainUser(text, Some(CompactionMeta)) }

  function Preamble(input: HistoryInput, ctx: StateContext): seq<Item> {
    var instructions := if ctx.cwdGeneration == 0 then input.agentsReminder else ctx.destinationInstructions;
    [input.systemMessage, Meta(input.userPrefix)]
    + (if instructions.Some? then [PlainUser(instructions.value, Some(ProjectInstructions))] else [])
  }

  function SummaryItem(input: HistoryInput): Item {
    Meta(SummaryContent(input.summary) + (if input.transcriptHint.Some? then input.transcriptHint.value else ""))
  }

  function Closing(input: HistoryInput): seq<Item> {
    [SummaryItem(input)]
    + (if input.systemReminder.Some? then [PlainUser(input.systemReminder.value, Some(SystemReminder))] else [])
  }

  function QueryItem(query: string): Item { PlainUser(WrapUserQuery(query), None) }

  /** The last query and the latest agent message, in their original order. */
  function Core(query: Option<string>, anchor: Option<Anchor>): seq<Item> {
    var q := if query.Some? then [QueryItem(query.value)] else [];
    if anchor.None? then q
    else if anchor.value.position.BeforeHuman? then [anchor.value.item] + q
    else q + [anchor.value.item]
  }

  /** The anchor is emitted on its own only when the tail does not carry it. */
  function EmittedAnchor(ctx: StateContext): Option<Anchor> {
    if LastWhere(ctx.recent, FromAgent).Some? then None else ctx.anchor
  }

  function Rebuilt(input: HistoryInput, ctx: StateContext): seq<Item> {
    Preamble(input, ctx) + Core(ctx.lastUserQuery, EmittedAnchor(ctx)) + ctx.recent + Closing(input)
  }

  /** `item` is a user message with this one text, this reason and nothing else. */
  ghost predicate IsText(item: Item, text: string, reason: Option<SyntheticReason>) {
    && item.User? && item.user.content == [TextPart(text)] && item.user.syntheticReason == reason
    && item.user.cwdGeneration == None && item.user.priorTurnInterrupt == None && item.user.promptIndex == None
  }

  /** What the model reads in place of the conversation: the continuation sentence, the cleaned summary, the hint. */
  ghost predicate IsSummary(item: Item, summary: string, hint: Option<string>) {
    var preamble := "This session is being continued from a previous conversation that ran out of context. "
                    + "The summary below covers the earlier portion of the conversation.\n\n";
    IsText(item, preamble + FormattedSummary(summary) + (if hint.Some? then hint.value else ""), Some(CompactionMeta))
  }

  ghost predicate IsQuery(item: Item, query: string) {
    IsText(item, "<user_query>\n" + query + "\n</user_query>", None)
  }

  /** The agent message is put in on its own: it was captured and is not in the tail. */
  ghost predicate AnchorAlone(ctx: StateContext) {
    ctx.anchor.Some? && forall k :: 0 <= k < |ctx.recent| ==> !ctx.recent[k].IsAgentMessage()
  }

  ghost function One(b: bool): nat { if b then 1 else 0 }

  /** The system message, the prefix, the instructions: at generation 0 as at the start, later for the destination. */
  ghost predicate OpensWith(a: seq<Item>, input: HistoryInput, ctx: StateContext) {
    var instructions := if ctx.cwdGeneration == 0 then input.agentsReminder else ctx.destinationInstructions;
    && |a| == 2 + One(instructions.Some?)
    && a[0] == input.systemMessage && IsText(a[1], input.userPrefix, Some(CompactionMeta))
    && (instructions.Some? ==> IsText(a[2], instructions.value, Some(ProjectInstructions)))
  }

  /** The query and the agent message, in the order in which they came. */
  ghost predicate AnchorsAre(b: seq<Item>, ctx: StateContext) {
    var query, alone := ctx.lastUserQuery, AnchorAlone(ctx);
    var agentFirst := alone && ctx.anchor.value.position.BeforeHuman?;
    && |b| == One(query.Some?) + One(alone)
    && (query.Some? ==> IsQuery(b[One(agentFirst)], query.value))
    && (alone ==> b[One(query.Some? && !agentFirst)] == ctx.anchor.value.item)
  }

  /** The summary and the reminder. */
  ghost predicate ClosesWith(d: seq<Item>, input: HistoryInput) {
    && |d| == 1 + One(input.systemReminder.Some?)
    && IsSummary(d[0], input.summary, input.transcriptHint)
    && (input.systemReminder.Some? ==> IsText(d[1], input.systemReminder.value, Some(SystemReminder)))
  }

  /** A rebuilt history: its opening, the anchors, the tail in order, its closing; nothing else. */
  ghost predicate LaidOut(c: seq<Item>, input: HistoryInput, ctx: StateContext) {
    exists i: nat, j: nat ::
      && i <= j && j + |ctx.recent| <= |c|
      && OpensWith(c[..i], input, ctx) && AnchorsAre(c[i..j], ctx)
      && c[j..j + |ctx.recent|] == ctx.recent && ClosesWith(c[j + |ctx.recent|..], input)
  }

  lemma {:induction false} SummaryIsItsText(input: HistoryInput)
    ensures IsSummary(SummaryItem(input), input.summary, input.transcriptHint)
  {
    hide FormattedSummary;
  }

  lemma {:induction false} QueryIsItsText(query: string)
    ensures IsQuery(QueryItem(query), query)
  {
    var open, close := "<user_query>\n", "\n</user_query>";
    assert open == OpenTag(QUERY_TAG) + ['\n'] && close == ['\n'] + CloseTag(QUERY_TAG);
    assert WrapUserQuery(query) == open + query + close;
  }

  lemma {:induction false} OpeningAndClosing(input: HistoryInput, ctx: StateContext)
    ensures OpensWith(Preamble(input, ctx), input, ctx) && ClosesWith(Closing(input), input)
  {
    SummaryIsItsText(input);
    hide IsSummary, SummaryItem;
  }

  lemma {:induction false} CoreIsTheAnchors(ctx: StateContext)
    ensures AnchorsAre(Core(ctx.lastUserQuery, EmittedAnchor(ctx)), ctx)
  {
    hide IsQuery, QueryItem, LastWhere;
    if ctx.lastUserQuery.Some? {
      QueryIsItsText(ctx.lastUserQuery.value);
    }
  }

  lemma {:induction false} RebuiltIsLaidOut(input: HistoryInput, ctx: StateContext)
    ensures LaidOut(Rebuilt(input, ctx), input, ctx)
  {
    hide OpensWith, AnchorsAre, ClosesWith, Preamble, Core, Closing, EmittedAnchor;
    OpeningAndClosing(input, ctx);
    CoreIsTheAnchors(ctx);
    var pre, core := Preamble(input, ctx), Core(ctx.lastUserQuery, EmittedAnchor(ctx));
    var c, i, j := Rebuilt(input, ctx), |pre|, |pre| + |core|;
    assert c[..i] == pre && c[i..j] == core;
    assert c[j..j + |ctx.recent|] == ctx.recent && c[j + |ctx.recent|..] == Closing(input);
  }

  method BuildCompactedHistory(input: HistoryInput, ctx: StateContext) returns (compacted: seq<Item>)
    ensures compacted == Rebuilt(input, ctx) && LaidOut(compacted, input, ctx)
  {
    hide SummaryItem, QueryItem, EmittedAnchor, LaidOut, Rebuilt;
    var summary := SummaryItem(input);
    compacted := [input.systemMessage, Meta(input.userPrefix)];
    var instructions := if ctx.cwdGeneration == 0 then input.agentsReminder else ctx.destinationInstructions;
    if instructions.Some? {
      compacted := compacted + [PlainUser(instructions.value, Some(ProjectInstructions))];
    }
    assert compacted == Preamble(input, ctx);
    var anchor := EmittedAnchor(ctx);
    if anchor.Some? && anchor.value.position.BeforeHuman? {
      compacted := compacted + [anchor.value.item];
    }
    if ctx.lastUserQuery.Some? {
      compacted := compacted + [QueryItem(ctx.lastUserQuery.value)];
    }
    if anchor.Some? && !anchor.value.position.BeforeHuman? {
      compacted := compacted + [anchor.value.item];
    }
    assert compacted == Preamble(input, ctx) + Core(ctx.lastUserQuery, anchor);
    for k := 0 to |ctx.recent|
      invariant compacted == Preamble(input, ctx) + Core(ctx.lastUserQuery, anchor) + ctx.recent[..k]
    {
      compacted := compacted + [ctx.recent[k]];
    }
    assert ctx.recent[..|ctx.recent|] == ctx.recent;
    compacted := compacted + [summary];
    if input.systemReminder.Some? {
      compacted := compacted + [PlainUser(input.systemReminder.value, Some(SystemReminder))];
    }
    RebuiltInParts(input, ctx, compacted);
    RebuiltIsLaidOut(input, ctx);
  }

  lemma {:induction false} RebuiltInParts(input: HistoryInput, ctx: StateContext, compacted: seq<Item>)
    requires compacted
          == Preamble(input, ctx) + Core(ctx.lastUserQuery, EmittedAnchor(ctx)) + ctx.recent + [SummaryItem(input)]
             + (if input.systemReminder.Some? then [PlainUser(input.systemReminder.value, Some(SystemReminder))]
                else [])
    ensures compacted == Rebuilt(input, ctx)
  {
    hide Preamble, Core, SummaryItem, EmittedAnchor, PlainUser;
  }

  /** One compaction: capture, drop the tail, rebuild. */
  function Compacted(input: HistoryInput, cwdGeneration: nat, destination: Option<string>, conversation: seq<Item>)
      : seq<Item> {
    Rebuilt(input, Captured(conversation, cwdGeneration, destination).ForCompaction())
  }

  // ---------------------------------------------------- anchors found again

  lemma {:induction false} LastWhereUnique(items: seq<Item>, p: Item -> bool, i: nat)
    requires i < |items| && p(items[i]) && forall k :: i < k < |items| ==> !p(items[k])
    ensures LastWhere(items, p) == Some(i)
  {}

  lemma {:induction false} LastWhereNone(items: seq<Item>, p: Item -> bool)
    requires forall k :: 0 <= k < |items| ==> !p(items[k])
    ensures LastWhere(items, p) == None
  {}

  /** Neither the preamble nor the closing holds an anchor. */
  lemma {:induction false} FrameHasNoAnchor(input: HistoryInput, ctx: StateContext)
    requires input.systemMessage.System?
    ensures forall k :: 0 <= k < |Preamble(input, ctx)| ==> !IsAnchor(Preamble(input, ctx)[k])
    ensures forall k :: 0 <= k < |Closing(input)| ==> !IsAnchor(Closing(input)[k])
  {
    hide SummaryContent, ExtractUserQuery;
  }

  /** Items around the core do not change what is last in it. */
  lemma {:induction false} LastWhereInside(a: seq<Item>, core: seq<Item>, b: seq<Item>, p: Item -> bool)
    requires forall k :: 0 <= k < |a| ==> !p(a[k])
    requires forall k :: 0 <= k < |b| ==> !p(b[k])
    ensures LastWhere(a + core + b, p) ==
            match LastWhere(core, p) case None => None case Some(k) => Some(|a| + k)
  {
    var s := a + core + b;
    assert forall k :: 0 <= k < |a| ==> s[k] == a[k];
    assert forall k :: |a| <= k < |a| + |core| ==> s[k] == core[k - |a|];
    assert forall k :: |a| + |core| <= k < |s| ==> s[k] == b[k - |a| - |core|];
    match LastWhere(core, p) {
      case None => LastWhereNone(s, p);
      case Some(i) =>
        assert s[|a| + i] == core[i];
        LastWhereUnique(s, p, |a| + i);
    }
  }

  ghost predicate WellFormedAnchor(anchor: Option<Anchor>) {
    anchor.Some? ==> anchor.value.item.IsAgentMessage()
  }

  /** A query item counts as a human turn exactly when the query it reads back as is not synthetic. */
  lemma {:induction false} QueryItemIsHuman(query: string)
    ensures IsRealUserTurn(QueryItem(query)) <==> !IsSyntheticQuery(ExtractUserQuery(WrapUserQuery(query)))
    ensures !QueryItem(query).IsAgentMessage()
    ensures JoinedText(QueryItem(query).user.content) == WrapUserQuery(query)
  {
    hide ExtractUserQuery, WrapUserQuery, IsSyntheticQuery;
    var parts := QueryItem(query).user.content;
    assert parts == [TextPart(WrapUserQuery(query))] && parts[1..] == [];
  }

  /** The anchors found in a core, when it carries no query that counts as human. */
  lemma {:induction false} CoreWithoutHuman(query: Option<string>, anchor: Option<Anchor>)
    requires WellFormedAnchor(anchor)
    requires query.Some? ==> !IsRealUserTurn(QueryItem(query.value))
    ensures LastWhere(Core(query, anchor), IsRealUserTurn) == None
  {
    hide IsRealUserTurn, QueryItem, LastWhere;
    AgentIsNotHuman(anchor);
    LastWhereNone(Core(query, anchor), IsRealUserTurn);
  }

  lemma {:induction false} CoreWithHuman(query: string, anchor: Option<Anchor>)
    requires WellFormedAnchor(anchor) && IsRealUserTurn(QueryItem(query))
    requires anchor.Some? ==> !anchor.value.position.Only?
    ensures LastWhere(Core(Some(query), anchor), IsRealUserTurn) ==
            Some(if anchor.Some? && anchor.value.position.BeforeHuman? then 1 else 0)
    ensures LatestAgentMessage(Core(Some(query), anchor)) == anchor
  {
    hide IsRealUserTurn, QueryItem, LastWhere, ExtractUserQuery, IsSyntheticQuery, WrapUserQuery;
    AgentIsNotHuman(anchor);
    QueryItemIsHuman(query);
    var q := QueryItem(query);
    var core := Core(Some(query), anchor);
    if anchor.None? {
      assert core == [q];
      LastWhereUnique(core, IsRealUserTurn, 0);
      LastWhereNone(core, FromAgent);
    } else if anchor.value.position.BeforeHuman? {
      assert core == [anchor.value.item, q];
      LastWhereUnique(core, IsRealUserTurn, 1);
      LastWhereUnique(core, FromAgent, 0);
    } else {
      assert core == [q, anchor.value.item];
      LastWhereUnique(core, IsRealUserTurn, 0);
      LastWhereUnique(core, FromAgent, 1);
    }
  }

  lemma {:induction false} AgentIsNotHuman(anchor: Option<Anchor>)
    requires WellFormedAnchor(anchor)
    ensures anchor.Some? ==> !IsRealUserTurn(anchor.value.item)
  {}

  lemma {:induction false} CoreAgentOnly(anchor: Option<Anchor>)
    requires WellFormedAnchor(anchor) && (anchor.Some? ==> anchor.value.position.Only?)
    ensures LatestAgentMessage(Core(None, anchor)) == anchor
  {
    hide LastWhere, IsRealUserTurn, QueryItem;
    CoreWithoutHuman(None, anchor);
    var core := Core(None, anchor);
    if anchor.Some? {
      assert core == [anchor.value.item];
      LastWhereUnique(core, FromAgent, 0);
    } else {
      assert core == [];
      LastWhereNone(core, FromAgent);
    }
  }

  // ------------------------------------------------------------- compaction twice

  /** What a compacted history holds between its fixed opening and closing. */
  lemma {:induction false} CompactedShape(input: HistoryInput, generation: nat, destination: Option<string>,
                                          conversation: seq<Item>)
    ensures Compacted(input, generation, destination, conversation) ==
            Preamble(input, Frame(generation, destination))
            + Core(LastRealUserQuery(conversation), LatestAgentMessage(conversation)) + Closing(input)
  {
    var ctx := Captured(conversation, generation, destination).ForCompaction();
    TailHasNoNewAgent(conversation);
    hide LastWhere, LatestAgentMessage, LastRealUserQuery, Core, SinceLastAnchor, Closing;
    NothingRecent();
    assert ctx.anchor == LatestAgentMessage(conversation);
    var p := Preamble(input, ctx) + Core(ctx.lastUserQuery, ctx.anchor);
    assert p + [] == p;
  }

  lemma {:induction false} NothingRecent()
    ensures LastWhere([], FromAgent) == None
  {}

  /** Only the two fields that the preamble reads. */
  function Frame(generation: nat, destination: Option<string>): StateContext {
    StateContext(generation, destination, None, [], None)
  }

  lemma {:induction false} TailHasNoNewAgent(conversation: seq<Item>)
    ensures LatestAgentMessage(conversation).None? ==> LatestAgentMessage(SinceLastAnchor(conversation)).None?
  {
    if LastWhere(conversation, FromAgent).None? {
      var from := conversation[TailStart(conversation)..];
      assert forall k :: 0 <= k < |from| ==> from[k] == conversation[TailStart(conversation) + k];
      WorkingTailAgents(from);
      LastWhereNone(SinceLastAnchor(conversation), FromAgent);
    }
  }

  lemma {:induction false} WorkingTailAgents(items: seq<Item>)
    requires forall k :: 0 <= k < |items| ==> !FromAgent(items[k])
    ensures forall k :: 0 <= k < |WorkingTail(items)| ==> !FromAgent(WorkingTail(items)[k])
  {
    if items != [] {
      WorkingTailAgents(items[1..]);
    }
  }

  lemma {:induction false} CapturedAnchorShape(conversation: seq<Item>)
    ensures WellFormedAnchor(LatestAgentMessage(conversation))
    ensures LatestAgentMessage(conversation).Some? ==>
            (LatestAgentMessage(conversation).value.position.Only? <==> LastRealUserQuery(conversation).None?)
  {
    hide LastWhere, IsRealUserTurn, ExtractUserQuery, JoinedText;
  }

  /** Capturing from a compacted history looks only at its core. */
  lemma {:induction false} CaptureFromCompacted(input: HistoryInput, ctx: StateContext, core: seq<Item>)
    requires input.systemMessage.System?
    ensures var c := Preamble(input, ctx) + core + Closing(input);
            LatestAgentMessage(c) == LatestAgentMessage(core) && LastRealUserQuery(c) == LastRealUserQuery(core)
  {
    hide Preamble, Closing;
    FrameHasNoAnchor(input, ctx);
    CaptureInside(Preamble(input, ctx), core, Closing(input));
  }

  /** Capturing looks past items that are no anchors. */
  lemma {:induction false} CaptureInside(a: seq<Item>, core: seq<Item>, b: seq<Item>)
    requires forall k :: 0 <= k < |a| ==> !IsAnchor(a[k])
    requires forall k :: 0 <= k < |b| ==> !IsAnchor(b[k])
    ensures LatestAgentMessage(a + core + b) == LatestAgentMessage(core)
    ensures LastRealUserQuery(a + core + b) == LastRealUserQuery(core)
  {
    hide LastWhere, IsRealUserTurn, ExtractUserQuery, JoinedText;
    var c := a + core + b;
    assert forall k :: 0 <= k < |core| ==> core[k] == c[|a| + k];
    LastWhereInside(a, core, b, IsRealUserTurn);
    LastWhereInside(a, core, b, FromAgent);
  }

  /** The captured query comes back unchanged and still counts as a human turn. */
  ghost predicate QueryPersists(query: Option<string>) {
    query.Some? ==> SurvivesWrapping(query.value) && !IsSyntheticQuery(query.value)
  }

  lemma {:induction false} RecapturedCore(query: Option<string>, anchor: Option<Anchor>)
    requires WellFormedAnchor(anchor)
    requires anchor.Some? ==> (anchor.value.position.Only? <==> query.None?)
    ensures QueryPersists(query) ==>
      LastRealUserQuery(Core(query, anchor)) == query && LatestAgentMessage(Core(query, anchor)) == anchor
    ensures !QueryPersists(query) ==> LastRealUserQuery(Core(query, anchor)) != query
    ensures LastRealUserQuery(Core(query, anchor)).Some? ==> LatestAgentMessage(Core(query, anchor)) == anchor
  {
    if query.None? {
      CoreWithoutHuman(None, anchor);
      CoreAgentOnly(anchor);
    } else {
      var q := query.value;
      RoundTripIff(q);
      QueryItemIsHuman(q);
      hide ExtractUserQuery, WrapUserQuery, SurvivesWrapping, IsSyntheticQuery, LatestAgentMessage, LastWhere;
      if IsRealUserTurn(QueryItem(q)) {
        CoreWithHuman(q, anchor);
        hide IsRealUserTurn;
        CoreQuery(q, anchor);
      } else {
        CoreWithoutHuman(query, anchor);
      }
    }
  }

  lemma {:induction false} CoreQuery(query: string, anchor: Option<Anchor>)
    requires LastWhere(Core(Some(query), anchor), IsRealUserTurn) ==
             Some(if anchor.Some? && anchor.value.position.BeforeHuman? then 1 else 0)
    ensures LastRealUserQuery(Core(Some(query), anchor)) == Some(ExtractUserQuery(WrapUserQuery(query)))
  {
    QueryItemIsHuman(query);
    hide ExtractUserQuery, WrapUserQuery, LastWhere, IsRealUserTurn;
    var at := if anchor.Some? && anchor.value.position.BeforeHuman? then 1 else 0;
    assert Core(Some(query), anchor)[at] == QueryItem(query);
  }

  /** Different queries, or a query and none, give different cores around the same anchor. */
  lemma {:induction false} CoreInjective(q: Option<string>, q': Option<string>, anchor: Option<Anchor>,
                                         anchor': Option<Anchor>)
    requires q.Some? && q != q' && (q'.Some? ==> anchor == anchor')
    requires anchor'.Some? ==> anchor.Some?
    ensures Core(q, anchor) != Core(q', anchor')
  {
    if q'.Some? {
      WrapInjective(q.value, q'.value);
      var at := if anchor.Some? && anchor.value.position.BeforeHuman? then 1 else 0;
      hide WrapUserQuery;
      assert Core(q, anchor)[at] == QueryItem(q.value) && Core(q', anchor)[at] == QueryItem(q'.value);
      assert QueryItem(q.value).user.content[0] == TextPart(WrapUserQuery(q.value));
      assert QueryItem(q'.value).user.content[0] == TextPart(WrapUserQuery(q'.value));
    }
  }

  lemma {:induction false} WrapInjective(a: string, b: string)
    ensures WrapUserQuery(a) == WrapUserQuery(b) ==> a == b
  {
    var open, close := OpenTag(QUERY_TAG), CloseTag(QUERY_TAG);
    var x, y := WrapUserQuery(a), WrapUserQuery(b);
    assert x[|open| + 1..|x| - |close| - 1] == a;
    assert y[|open| + 1..|y| - |close| - 1] == b;
  }

  /** The agent message of a core is the one put into it, if any. */
  lemma {:induction false} CoreAgentComesFromAnchor(query: Option<string>, anchor: Option<Anchor>)
    ensures LatestAgentMessage(Core(query, anchor)).Some? ==> anchor.Some?
  {
    hide QueryItem, LastWhere, IsRealUserTurn, ExtractUserQuery, IsSyntheticQuery, WrapUserQuery;
    if anchor.None? {
      if query.Some? { QueryItemIsHuman(query.value); }
      LastWhereNone(Core(query, anchor), FromAgent);
    }
  }

  /**
   Compaction is a fixpoint exactly when there is no human turn, or the last one's
   query is not synthetic and survives being wrapped and read back. An image-only
   last turn, whose query is empty, is the typical exception: the rebuilt query item
   no longer counts as a human turn.
   */
  lemma {:induction false} CompactionFixpointIff(input: HistoryInput, generation: nat, destination: Option<string>,
                                                 conversation: seq<Item>)
    requires input.systemMessage.System?
    ensures var once := Compacted(input, generation, destination, conversation);
            Compacted(input, generation, destination, once) == once <==> QueryPersists(LastRealUserQuery(conversation))
  {
    var query, anchor := LastRealUserQuery(conversation), LatestAgentMessage(conversation);
    var core := Core(query, anchor);
    var query', anchor' := LastRealUserQuery(core), LatestAgentMessage(core);
    CompactedShape(input, generation, destination, conversation);
    var once := Compacted(input, generation, destination, conversation);
    CompactedShape(input, generation, destination, once);
    CapturedAnchorShape(conversation);
    CaptureFromCompacted(input, Frame(generation, destination), core);
    RecapturedCore(query, anchor);
    if !QueryPersists(query) {
      CoreAgentComesFromAnchor(query, anchor);
      CoreInjective(query, query', anchor, anchor');
    }
    hide Compacted, Core, Preamble, Closing, LastRealUserQuery, LatestAgentMessage, QueryPersists;
    SandwichCancels(Preamble(input, Frame(generation, destination)), core, Core(query', anchor'), Closing(input));
  }

  lemma {:induction false} SandwichCancels(a: seq<Item>, x: seq<Item>, y: seq<Item>, b: seq<Item>)
    ensures a + x + b == a + y + b <==> x == y
  {
    var s, t := a + x + b, a + y + b;
    assert s[|a|..|s| - |b|] == x && t[|a|..|t| - |b|] == y;
  }

  /** Sufficient, and checkable from the text alone. */
  lemma {:induction false} PlainQueryIsFixpoint(input: HistoryInput, generation: nat, destination: Option<string>,
                                                conversation: seq<Item>, query: string)
    requires input.systemMessage.System? && LastRealUserQuery(conversation) == Some(query)
    requires query != "" && query != "__auto_continue__" && query != AUTO_CONTINUE_PROMPT
    requires SurvivesWrapping(query)
    ensures var once := Compacted(input, generation, destination, conversation);
            Compacted(input, generation, destination, once) == once
  {
    CompactionFixpointIff(input, generation, destination, conversation);
  }

  /** Compacting an image-only prompt twice is not compacting it once. */
  lemma {:induction false} ImageOnlyTurnIsNotFixpoint(input: HistoryInput, url: string)
    requires input.systemMessage.System?
    ensures var conversation := [User(UserItem([ImagePart(url)], None, None, None, None))];
            var once := Compacted(input, 0, None, conversation);
            Compacted(input, 0, None, once) != once
  {
    var turn := User(UserItem([ImagePart(url)], None, None, None, None));
    var conversation := [turn];
    hide IsSyntheticQuery, ExtractUserQuery, Compacted;
    assert turn.user.content[0].ImagePart?;
    assert IsRealUserTurn(turn);
    LastWhereUnique(conversation, IsRealUserTurn, 0);
    assert turn.user.content[1..] == [] && JoinedText(turn.user.content) == JoinedText([]);
    NothingToExtract();
    assert LastRealUserQuery(conversation) == Some("");
    CompactionFixpointIff(input, 0, None, conversation);
  }

  lemma {:induction false} NothingToExtract()
    ensures ExtractUserQuery("") == "" && IsSyntheticQuery("")
  {
    NothingBetween("", OpenTag(QUERY_TAG), CloseTag(QUERY_TAG));
  }

  lemma {:induction false} NothingBetween(s: string, open: string, close: string)
    requires s == "" && open != ""
    ensures Between(s, open, close) == ""
  {}

  /** The latest agent message is there once, at `i`, or there is none. */
  ghost predicate AgentKept(compacted: seq<Item>, conversation: seq<Item>, i: nat) {
    match LastWhere(conversation, FromAgent)
    case None => forall k :: 0 <= k < |compacted| ==> !compacted[k].IsAgentMessage()
    case Some(a) =>
      && i < |compacted| && compacted[i] == conversation[a]
      && forall k :: 0 <= k < |compacted| && compacted[k].IsAgentMessage() ==> k == i
  }

  /** The last human query is there once, at `j`, or there is no human turn. */
  ghost predicate QueryKept(compacted: seq<Item>, conversation: seq<Item>, j: nat) {
    match LastRealUserQuery(conversation)
    case None => forall k :: 0 <= k < |compacted| ==> !IsRealUserTurn(compacted[k])
    case Some(query) =>
      && j < |compacted| && compacted[j] == QueryItem(query)
      && forall k :: 0 <= k < |compacted| && IsRealUserTurn(compacted[k]) ==> k == j
  }

  /** Either anchor is kept once, and two of them in their original order; nothing else counts as one. */
  lemma {:induction false} CompactedKeepsAnchors(input: HistoryInput, generation: nat, destination: Option<string>,
                                                 conversation: seq<Item>)
    requires input.systemMessage.System?
    ensures var compacted := Compacted(input, generation, destination, conversation);
            var h, a := LastWhere(conversation, IsRealUserTurn), LastWhere(conversation, FromAgent);
            exists i: nat, j: nat ::
              && AgentKept(compacted, conversation, i) && QueryKept(compacted, conversation, j)
              && (h.Some? && a.Some? ==> (i < j <==> a.value < h.value))
  {
    hide IsRealUserTurn, ExtractUserQuery, WrapUserQuery, IsSyntheticQuery, LastWhere, Compacted, Closing, QueryItem,
         Preamble;
    var query, anchor := LastRealUserQuery(conversation), LatestAgentMessage(conversation);
    var pre, core, post := Preamble(input, Frame(generation, destination)), Core(query, anchor), Closing(input);
    var compacted := pre + core + post;
    CompactedShape(input, generation, destination, conversation);
    CapturedAnchorShape(conversation);
    FrameHasNoAnchor(input, Frame(generation, destination));
    AgentIsNotHuman(anchor);
    if query.Some? {
      QueryItemIsHuman(query.value);
    }
    var first: bool := anchor.Some? && anchor.value.position.BeforeHuman?;
    var i := |pre| + if first || query.None? then 0 else 1;
    var j := |pre| + if first then 1 else 0;
    forall k | 0 <= k < |compacted| && !(|pre| <= k < |pre| + |core|) ensures !IsAnchor(compacted[k]) {
      assert compacted[k] == if k < |pre| then pre[k] else post[k - |pre| - |core|];
    }
    forall k | |pre| <= k < |pre| + |core| ensures compacted[k] == core[k - |pre|] {}
    hide Core;
    CoreAnchors(query, anchor);
    assert AgentKept(compacted, conversation, i);
    assert QueryKept(compacted, conversation, j);
  }

  /** Where the two anchors stand in a core, and that nothing else is in it. */
  lemma {:induction false} CoreAnchors(query: Option<string>, anchor: Option<Anchor>)
    ensures var core := Core(query, anchor);
            var first := anchor.Some? && anchor.value.position.BeforeHuman?;
            && |core| == (if query.Some? then 1 else 0) + (if anchor.Some? then 1 else 0)
            && (query.Some? ==> core[if first then 1 else 0] == QueryItem(query.value))
            && (anchor.Some? ==> core[if first || query.None? then 0 else 1] == anchor.value.item)
  {
    hide QueryItem;
  }

  // --------------------------------------------------- results in the kept tail

  /** Every result's call precedes it with no anchor in between; reminders may lie there. */
  ghost predicate NoAnchorSplitsAPair(conversation: seq<Item>) {
    forall j :: 0 <= j < |conversation| && conversation[j].ToolResult? ==> PairedSinceAnchor(conversation, j)
  }

  ghost predicate PairedSinceAnchor(conversation: seq<Item>, j: nat)
    requires j < |conversation| && conversation[j].ToolResult?
  {
    exists i :: 0 <= i < j && conversation[i].DeclaresCall(conversation[j].toolCallId)
      && forall k :: i < k < j ==> !IsAnchor(conversation[k])
  }

  lemma {:induction false} OrphansOfTail(items: seq<Item>, seen: set<string>)
    ensures OrphanIds(WorkingTail(items), seen) == OrphanIds(items, seen)
  {
    if items != [] {
      var t := items[1..];
      match items[0] {
        case Assistant(_, calls, _) => OrphansOfTail(t, seen + CallIds(calls));
        case _ => OrphansOfTail(t, seen);
      }
    }
  }

  lemma {:induction false} TailHasNoOrphan(conversation: seq<Item>)
    requires NoAnchorSplitsAPair(conversation)
    ensures OrphanIds(SinceLastAnchor(conversation), {}) == []
  {
    hide IsAnchor, LastWhere, IsRealUserTurn, OrphanIds, WorkingTail, TailStart, CalledBefore, PairedSinceAnchor,
         Sanitized;
    var start := TailStart(conversation);
    var from := conversation[start..];
    OrphansOfTail(from, {});
    OrphansFound(from);
    forall j: nat | j < |from| && from[j].ToolResult? ensures CalledBefore(from, j) {
      assert PairedSinceAnchor(conversation, start + j);
      var i := CallInTail(conversation, start, start + j);
      CalledHere(from, i - start, j);
    }
  }

  lemma {:induction false} CallInTail(conversation: seq<Item>, start: nat, j: nat) returns (i: nat)
    requires start == TailStart(conversation) && start <= j < |conversation|
    requires conversation[j].ToolResult? && PairedSinceAnchor(conversation, j)
    ensures start <= i < j && conversation[i].DeclaresCall(conversation[j].toolCallId)
  {
    hide IsAnchor, LastWhere, IsRealUserTurn, TailStart;
    i :| i < j && conversation[i].DeclaresCall(conversation[j].toolCallId)
      && forall k :: i < k < j ==> !IsAnchor(conversation[k]);
    TailStartAfter(conversation, i, j);
  }

  lemma {:induction false} CalledHere(items: seq<Item>, i: nat, j: nat)
    requires i < j < |items| && items[j].ToolResult? && items[i].DeclaresCall(items[j].toolCallId)
    ensures CalledBefore(items, j)
  {}

  /** An assistant with no anchor between it and a later tail item is in the tail too. */
  lemma {:induction false} TailStartAfter(conversation: seq<Item>, i: nat, j: nat)
    requires i < j < |conversation| && TailStart(conversation) <= j
    requires conversation[i].Assistant? && conversation[j].ToolResult?
    requires forall k :: i < k < j ==> !IsAnchor(conversation[k])
    ensures TailStart(conversation) <= i
  {
    assert !IsAnchor(conversation[i]) && !IsAnchor(conversation[j]);
  }

  ghost predicate NoPairing(items: seq<Item>) {
    forall k :: 0 <= k < |items| ==> !items[k].Assistant? && !items[k].ToolResult?
  }

  lemma {:induction false} OrphansSkipPrefix(a: seq<Item>, rest: seq<Item>, seen: set<string>)
    requires NoPairing(a)
    ensures OrphanIds(a + rest, seen) == OrphanIds(rest, seen)
  {
    if a == [] {
      assert a + rest == rest;
    } else {
      assert (a + rest)[1..] == a[1..] + rest;
      OrphansSkipPrefix(a[1..], rest, seen);
    }
  }

  lemma {:induction false} OrphansSkipSuffix(items: seq<Item>, b: seq<Item>, seen: set<string>)
    requires NoPairing(b)
    ensures OrphanIds(items + b, seen) == OrphanIds(items, seen)
  {
    if items == [] {
      assert items + b == b && b + [] == b;
      OrphansSkipPrefix(b, [], seen);
    } else {
      var t := items[1..];
      assert (items + b)[1..] == t + b;
      match items[0] {
        case Assistant(_, calls, _) => OrphansSkipSuffix(t, b, seen + CallIds(calls));
        case _ => OrphansSkipSuffix(t, b, seen);
      }
    }
  }

  /**
   If no anchor separates a call from its result, the captured tail has no orphan and
   the history rebuilt around it passes validation. Runtime reminders between a call
   and its result do no harm.
   */
  lemma {:induction false} RebuiltPassesValidation(input: HistoryInput, generation: nat,
                                                   destination: Option<string>, conversation: seq<Item>)
    requires input.systemMessage.System? && NoAnchorSplitsAPair(conversation)
    ensures var rebuilt := Rebuilt(input, Captured(conversation, generation, destination));
            OrphanIds(rebuilt, {}) == [] && EveryResultCalled(rebuilt)
  {
    hide OrphanIds, SinceLastAnchor, Core, Preamble, LatestAgentMessage, LastRealUserQuery, EmittedAnchor, Closing,
         NoPairing;
    var ctx := Captured(conversation, generation, destination);
    var opening := Preamble(input, ctx) + Core(ctx.lastUserQuery, EmittedAnchor(ctx));
    TailHasNoOrphan(conversation);
    OpeningHasNoPairing(input, ctx, conversation);
    FrameHasNoPairing(input, ctx);
    OrphansSkipSuffix(opening + ctx.recent, Closing(input), {});
    OrphansSkipPrefix(opening, ctx.recent, {});
    OrphansFound(Rebuilt(input, ctx));
  }

  lemma {:induction false} OpeningHasNoPairing(input: HistoryInput, ctx: StateContext, conversation: seq<Item>)
    requires input.systemMessage.System? && ctx.anchor == LatestAgentMessage(conversation)
    ensures NoPairing(Preamble(input, ctx) + Core(ctx.lastUserQuery, EmittedAnchor(ctx)))
  {
    hide LastWhere, IsRealUserTurn, Core, Preamble, NoPairing, LatestAgentMessage;
    CapturedAnchorShape(conversation);
    FrameHasNoPairing(input, ctx);
    CoreHasNoPairing(ctx.lastUserQuery, EmittedAnchor(ctx));
    NoPairingConcat(Preamble(input, ctx), Core(ctx.lastUserQuery, EmittedAnchor(ctx)));
  }

  lemma {:induction false} CoreHasNoPairing(query: Option<string>, anchor: Option<Anchor>)
    requires WellFormedAnchor(anchor)
    ensures NoPairing(Core(query, anchor))
  {
    hide QueryItem;
    if query.Some? {
      QueryItemIsUser(query.value);
    }
  }

  lemma {:induction false} NoPairingConcat(a: seq<Item>, b: seq<Item>)
    requires NoPairing(a) && NoPairing(b)
    ensures NoPairing(a + b)
  {}

  lemma {:induction false} QueryItemIsUser(query: string)
    ensures QueryItem(query).User?
  {}

  lemma {:induction false} FrameHasNoPairing(input: HistoryInput, ctx: StateContext)
    requires input.systemMessage.System?
    ensures NoPairing(Preamble(input, ctx)) && NoPairing(Closing(input))
  {
    hide SummaryContent;
  }
}
