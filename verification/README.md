# Hystersis core: a verified model

This project models the parts of Hystersis whose behaviour spans many steps, and proves what
their comments, tests and callers rely on.

* **Conversation repair, fitting and compaction.** Providers demand that a tool result stands in
  the run of results right after the assistant that made the call. `ToolPairing` states that rule,
  `HistoryRepair` holds the in-place passes, `PairingLaws` proves what they restore and when
  repair is idempotent, `RepairLaws` what becomes of each turn. `CompactedHistory` has the
  lenient check, `BudgetFit` the fitting to a token budget, `Utf8Truncate` the byte cut it uses, `UserQuery` and `MetadataTags` the tag parsing,
  `SummaryFormat` and `Scratchpad` the cleaning of model output and `Compaction` the capture and rebuild of a
  history; `FitLaws`, `QueryLaws`, `SummaryLaws` and `CompactionLaws` say what comes out of them by position and text.
* **Cancel-safe line reader.** `LineReader` has the reading methods and a state machine in which
  the reader task and the consumer interleave in any order.
* **Bundle cache.** `BundlePaths` validates paths; `BundleCache` has the two operations, with an
  I/O failure possible at each step; `BundleLaws` says what they leave at literal paths and
  `BundleRuns` what runs of them keep. What an operation does is stated path by path, on the
  bytes of a file and its record.
* **Active sessions.** `ActiveSessions` is a state machine over inodes: lock, read, mutate, write a
  temporary file, rename, unlock, with a crash possible anywhere and readers that take no lock.
* **Agent discovery.** `AgentDiscovery` proves that the list of subagents and the look-up by name,
  written separately, agree, and exactly where they do not; `DiscoveryLaws` which file each of them takes.

`Common`, `Text`, `Positions` and `Conversation` hold shared values, string operations, filters said by
position, and the history's items.
Code that mutates is modelled by classes and methods with loops, each proved against a function or
predicate; the laws are lemmas about those. Strings are sequences of Unicode scalar values, except
in `Utf8Truncate`, which works on bytes (UTF-8 as in section 3 of RFC 3629).

## Where the code falls short of its documentation or purpose

The model follows the code.

* `repair_history` is documented as idempotent. It is not for an assistant that repeats an id its
  run leaves unanswered: each copy is backfilled and the next repair removes one as a duplicate
  (`RepairIdempotentIff`, `RepeatedIdChangesTwice`).
* Truncated text is documented as fitting `max_bytes`. Below the reserve of 64 bytes the marker
  alone can exceed it (`TruncationBounds`).
* Fitting is documented as shrinking to `max_tokens`. When no turn fits, the assistant that owns the
  last results is kept whole, and if it is over the budget so is the result
  (`TailBranchWithinIff`, `OwnerOverruns`).
* A compacted history does not compact to itself when the last prompt is an image only, or its
  query reads back as synthetic: the next compaction drops the rebuilt query (`CompactionFixpointIff`).
* Metadata blocks are documented as stripped. Removing a later tag's block can join an earlier
  tag's, which stays (`StrippingJoinsABlock`); on text with paired angle brackets it cannot
  (`PairedTextIsStrippedClean`, a sufficient condition only).
* The cache tells its own files from local overwrites by their records. A repeated archive path,
  or an archive refused part-way, leaves files it wrote itself counted as local overwrites
  (`ExtractedFileIsManagedIff`, `UnversionedArchiveFreezes`, `RefusedArchiveFreezes`).
* The list of subagents is documented as callable. A user-level or bundled agent named after a
  built-in that is not a subagent is listed, and the look-up answers with the built-in
  (`VisibleIsCallableIff`, `ListedButNotCallable`). A file whose stem is not its declared name is
  listed under a name that finds nothing (`MisnamedFileIsNotCallable`).
* A unit test in `hystersis-agent/src/config.rs` spells the first built-in `hystersis`; the derived
  name is `hystersis-build`, which the model uses.

## Model

| member | source | states |
|---|---|---|
| `HistoryRepair.History.DedupDuplicateToolResults` | crates/codegen/hystersis-sampling-types/src/conversation.rs:2217-2272 | the scan that deletes in place ends with, in each run, only the last result for an id; it returns how many went |
| `HistoryRepair.History.StripDisplacedToolResults` | crates/codegen/hystersis-chat-state/src/compaction_utils.rs:1152-1178 | one pass with the id set of the run's head leaves the specified history and lists the stripped ids in order |
| `HistoryRepair.History.RepairDanglingToolCalls` | crates/codegen/hystersis-sampling-types/src/conversation.rs:2090-2150 | inserting from the back gives each unanswered call a synthetic result at the end of its owner's run |
| `HistoryRepair.History.RepairHistory` | crates/codegen/hystersis-chat-state/src/compaction_utils.rs:1126-1140 | the three passes in order; the length changes by exactly synthetic less duplicates less stripped, and the report says so |
| `PairingLaws.RepairRestoresRule` | crates/codegen/hystersis-chat-state/src/compaction_utils.rs:1126-1151 | after repair every result answers a call of the assistant heading its run, every call is answered exactly once if and only if no assistant repeats an id its run leaves unanswered, and non-results are untouched and in order |
| `PairingLaws.RepairedIsStable` | crates/codegen/hystersis-chat-state/src/compaction_utils.rs:1103-1140 | a second repair never strips and never backfills; it finds a duplicate exactly when an assistant repeated an unanswered id |
| `PairingLaws.RepairIdempotentIff` | crates/codegen/hystersis-chat-state/src/compaction_utils.rs:1120-1140 | repair, documented as idempotent, is so exactly when no assistant repeats an id that its run leaves unanswered |
| `PairingLaws.RepeatedIdChangesTwice` | crates/codegen/hystersis-chat-state/src/compaction_utils.rs:1120-1140 | the concrete history, one assistant with one id twice, that two repairs in a row both change |
| `PairingLaws.ThirdRepairUnchanged` | crates/codegen/hystersis-chat-state/src/compaction_utils.rs:1120-1140 | for every history a third repair changes nothing |
| `PairingLaws.DistinctIdsRepairOnce` | crates/codegen/hystersis-chat-state/src/compaction_utils.rs:1120-1140 | with ids distinct inside each assistant one repair restores the rule and a second reports no change |
| `PairingLaws.ResultsThatSurvive` | crates/codegen/hystersis-chat-state/src/compaction_utils.rs:1126-1178 | by position: stripping drops exactly the results whose run's head does not declare them; the repaired history, less the synthetic results it gained, is the history less those and less exactly the results a later one of the run replaces |
| `PairingLaws.RuleConcat` | crates/codegen/hystersis-chat-state/src/compaction_utils.rs:1141-1151 | cutting a history before a non-result item neither makes nor breaks the pairing rule |
| `RepairLaws.RepairedTurnByTurn` | crates/codegen/hystersis-chat-state/src/compaction_utils.rs:1126-1178 | in the repaired history every turn stands where it stood: its first item, the last result for each id that item declares, in order, and one stand-in, naming its own call's id and tool, for each call without a result, in call order; results before the first turn are gone |
| `RepairLaws.DedupedTurnByTurn` | crates/codegen/hystersis-sampling-types/src/conversation.rs:2217-2272 | the first pass alone: in the run of an assistant with calls the last result for each id stays, in order; all else is as it was |
| `RepairLaws.BackfilledTurnByTurn` | crates/codegen/hystersis-sampling-types/src/conversation.rs:2090-2150 | the last pass alone: behind each assistant's run the stand-ins for its unanswered calls, and nothing else |
| `RepairLaws.StrippedIdsByPosition` | crates/codegen/hystersis-chat-state/src/compaction_utils.rs:1152-1178 | the reported ids are those of exactly the results that no head declares, in order |
| `RepairLaws.WithoutKeepsTheRest` | crates/codegen/hystersis-chat-state/src/compaction_utils.rs:1073-1178 | dropping by position, the form in which the laws say what a pass drops, keeps exactly the other positions, in order |
| `CompactedHistory.ValidateCompactedHistory` | crates/codegen/hystersis-chat-state/src/compaction_utils.rs:1039-1058 | the left-to-right scan with the growing set of declared ids returns the orphan ids |
| `CompactedHistory.SanitizeCompactedHistory` | crates/codegen/hystersis-chat-state/src/compaction_utils.rs:1073-1100 | the sanitized history and the stripped ids of the same scan |
| `CompactedHistory.OrphansFound` | crates/codegen/hystersis-chat-state/src/compaction_utils.rs:1027-1100 | validation lists, in order, the ids of exactly the results no earlier assistant declares; sanitizing removes exactly those positions and lists the same ids; the list is empty if and only if every result is called before |
| `CompactedHistory.StripIsStricter` | crates/codegen/hystersis-chat-state/src/compaction_utils.rs:1141-1178 | whatever the strict pass keeps, sanitizing keeps |
| `CompactedHistory.StrippedPassesValidation` | crates/codegen/hystersis-chat-state/src/compaction_utils.rs:1152-1178 | the strict pass leaves only owned results, so its output validates |
| `CompactedHistory.SanitizeThenStrip` | crates/codegen/hystersis-chat-state/src/compaction_utils.rs:1073-1178 | sanitizing first makes no difference to the strict pass |
| `CompactedHistory.RepairedPassesValidation` | crates/codegen/hystersis-chat-state/src/compaction_utils.rs:1126-1140 | a repaired history validates and sanitizing leaves it alone |
| `BudgetFit.FitConversationToBudget` | crates/codegen/hystersis-chat-state/src/compaction_utils.rs:162-195 | the result is the input when it fits, else the System item with the longest fitting suffix of whole turns, else the cut-down tail |
| `BudgetFit.FirstKept` | crates/codegen/hystersis-chat-state/src/compaction_utils.rs:177-190 | counting the budget down and stepping over a headless run finds the start of the longest fitting suffix of whole turns |
| `BudgetFit.RecoverTruncatedTailUnit` | crates/codegen/hystersis-chat-state/src/compaction_utils.rs:197-229 | popping results and their owner off the end builds the last item, or the last run with its owner, each cut to its share |
| `BudgetFit.TruncateTrailingIncompleteToolCall` | crates/codegen/hystersis-chat-state/src/compaction_utils.rs:134-144 | exactly the trailing assistants that declare calls are dropped |
| `BudgetFit.FitIsUnique` | crates/codegen/hystersis-chat-state/src/compaction_utils.rs:162-195 | the description of the result determines it |
| `BudgetFit.FitKeepsRule` | crates/codegen/hystersis-chat-state/src/compaction_utils.rs:160-229 | if every result is in its owner's run before fitting, so it is after, in all three branches |
| `BudgetFit.SuffixBranch` | crates/codegen/hystersis-chat-state/src/compaction_utils.rs:173-195 | when whole turns survive, the estimate is within the budget whenever the System item is, and fitting again changes nothing either way |
| `BudgetFit.TailBranchWithinIff` | crates/codegen/hystersis-chat-state/src/compaction_utils.rs:192-229 | when no turn fits, the result is within the budget if and only if the owner of the last run, kept whole, and its cut results are within what the System item leaves; so it is over whenever the owner alone is |
| `BudgetFit.TailFitsItsShares` | crates/codegen/hystersis-chat-state/src/compaction_utils.rs:216-228 | it is within the budget when the owner leaves a token for each result and each cut result keeps to its share |
| `BudgetFit.OwnerOverruns` | crates/codegen/hystersis-chat-state/src/compaction_utils.rs:160-229 | the input that overruns: an assistant alone over the budget, and its result |
| `FitLaws.FitOutcome` | crates/codegen/hystersis-chat-state/src/compaction_utils.rs:160-195 | item by item: a conversation within the budget is returned as it is; else its System item stays first and the rest is the longest suffix of whole turns within what that leaves, or, when there is none, the cut tail, which is empty only if there was nothing else |
| `FitLaws.RecoveredIsCut` | crates/codegen/hystersis-chat-state/src/compaction_utils.rs:197-229 | the tail is the one last item if it is no result, else all of the last run behind its unchanged owner, each result cut to the largest equal share the owner leaves, one token at least |
| `FitLaws.TruncatedIsCut` | crates/codegen/hystersis-chat-state/src/compaction_utils.rs:231-259 | cutting an item keeps its kind, ids, calls, model, images and all else; each text is the same within four bytes a token and otherwise the longest prefix that fits beside the marker, and the marker |
| `Utf8Truncate.TruncateTextToBytes` | crates/codegen/hystersis-chat-state/src/compaction_utils.rs:260-275 | the byte scan for a boundary refines the longest prefix of whole characters within the reserve, with the marker after it |
| `Utf8Truncate.BoundaryIff` | crates/codegen/hystersis-chat-state/src/compaction_utils.rs:267-270 | in valid UTF-8 the positions that look like boundaries are exactly the ends of whole-character prefixes |
| `Utf8Truncate.TruncationBounds` | crates/codegen/hystersis-chat-state/src/compaction_utils.rs:260-275 | at most three bytes lost beyond the reserve, kept and dropped add up, the size is exact, and it fits the budget when that covers the reserve and fewer than 10^8 bytes are dropped; below 57 bytes it never fits |
| `Utf8Truncate.CharDecodes` | crates/codegen/hystersis-chat-state/src/compaction_utils.rs:260-275 | the bytes of each character carry its scalar value in their bits, as section 3 of RFC 3629 has it |
| `Utf8Truncate.DecimalDenotes` | crates/codegen/hystersis-chat-state/src/compaction_utils.rs:271-274 | the count in the marker denotes the number of bytes dropped, without a leading zero |
| `UserQuery.StripSystemTags` | crates/codegen/hystersis-chat-state/src/compaction_utils.rs:295-310 | the loop over the metadata tags terminates on every string and computes each tag's removal in turn, trimmed; what it leaves is in the next two rows |
| `MetadataTags.PairedTextIsStrippedClean` | crates/codegen/hystersis-chat-state/src/compaction_utils.rs:295-310 | on text whose every opening angle bracket is closed before the next one opens, no closed block of any tag is left and stripping again changes nothing |
| `MetadataTags.PairedTextHasNoMetadataLeft` | crates/codegen/hystersis-chat-state/src/compaction_utils.rs:277-310 | that, for the twelve metadata tags |
| `MetadataTags.StrippingJoinsABlock` | crates/codegen/hystersis-chat-state/src/compaction_utils.rs:295-310 | the failing family: for any plain tags, a block of one inside the opening tag of an earlier one's block; that block is left, and a second pass removes it |
| `MetadataTags.MetadataTagsJoin` | crates/codegen/hystersis-chat-state/src/compaction_utils.rs:277-310 | an instance among the twelve metadata tags |
| `UserQuery.StripEveryBlock` | crates/codegen/hystersis-chat-state/src/compaction_utils.rs:297-305 | for one tag: the loop computes the text with every block cut out, first opening tag first |
| `UserQuery.StripTag` | crates/codegen/hystersis-chat-state/src/compaction_utils.rs:297-305 | for one tag: no closed block is left, text without one is untouched, any other text shrinks |
| `UserQuery.StripTagsIdentity` | crates/codegen/hystersis-chat-state/src/compaction_utils.rs:295-310 | stripping is the identity if and only if no tag has a closed block, and otherwise shortens |
| `UserQuery.ExtractOfWrapped` | crates/codegen/hystersis-chat-state/src/compaction_utils.rs:316-327 | what any wrapped text reads back as |
| `UserQuery.TaggedRoundTripIff` | crates/codegen/hystersis-chat-state/src/compaction_utils.rs:295-327 | for any set of plain tags kept apart, the texts that round-trip |
| `UserQuery.RoundTripIff` | crates/codegen/hystersis-chat-state/src/compaction_utils.rs:316-327 | extracting a wrapped query gives it back if and only if it is trimmed, has no closed metadata block and no closing query tag |
| `QueryLaws.PlainTextIff` | crates/codegen/hystersis-chat-state/src/compaction_utils.rs:316-327 | reading leaves a text as it is if and only if it is trimmed and holds no closed block, of metadata or of the query's tag |
| `QueryLaws.QueryIsRead` | crates/codegen/hystersis-chat-state/src/compaction_utils.rs:316-327 | of a trimmed text without metadata blocks, what stands between the query's tags is read, trimmed, whatever is around them |
| `QueryLaws.BlockIsCutOut` | crates/codegen/hystersis-chat-state/src/compaction_utils.rs:297-305 | a closed block is cut out from its tag to the first closing one, and what is before and after it is kept and stripped in turn |
| `QueryLaws.PlainTurnIff` | crates/codegen/hystersis-chat-state/src/compaction_utils.rs:366-406 | a message of plain text without a reason is a human turn if and only if its text is neither empty nor one of the two auto-continue texts |
| `QueryLaws.WrappedTurnIff` | crates/codegen/hystersis-chat-state/src/compaction_utils.rs:366-406 | so is such a text in the query's tags |
| `QueryLaws.AutoContinueIsNoTurn` | crates/codegen/hystersis-chat-state/src/compaction_utils.rs:346-406 | the auto-continue texts are no human turns, bare or in tags |
| `QueryLaws.ReasonsAndImages` | crates/codegen/hystersis-chat-state/src/compaction_utils.rs:388-406 | a message with a reason is never a human turn, one without and with an image always is |
| `SummaryFormat.FormatCompactSummary` | crates/codegen/hystersis-chat-state/src/compaction_utils.rs:751-789 | the loops terminate on every string and compute the specified summary |
| `SummaryFormat.DropLeadingAnalysis` | crates/codegen/hystersis-chat-state/src/compaction_utils.rs:752-774 | the loop terminates on every string and computes the text without leading scratchpads; what its branches remove is `Scratchpad.ScratchpadRemoved` and the two rows after it |
| `Scratchpad.ScratchpadRemoved` | crates/codegen/hystersis-chat-state/src/compaction_utils.rs:752-766 | a scratchpad after nothing but space is gone whole, up to its first closing tag, whatever it holds and whatever follows |
| `Scratchpad.NestedScratchpadRemoved` | crates/codegen/hystersis-chat-state/src/compaction_utils.rs:752-766 | so is one at the start of the summary block |
| `Scratchpad.UnclosedScratchpadRemoved` | crates/codegen/hystersis-chat-state/src/compaction_utils.rs:767-773 | one that is never closed is gone up to the summary block, and without a block everything after it is |
| `Scratchpad.ScratchpadThenSummary` | crates/codegen/hystersis-chat-state/src/compaction_utils.rs:747-812 | of a scratchpad, space and a digit-led summary block, exactly the heading and the summary come back, whole but for blank lines |
| `Scratchpad.ScratchpadInSummary` | crates/codegen/hystersis-chat-state/src/compaction_utils.rs:747-812 | the same with the scratchpad at the start of the block |
| `Scratchpad.UnclosedScratchpadThenSummary` | crates/codegen/hystersis-chat-state/src/compaction_utils.rs:747-812 | the same with a scratchpad in front that nothing closes |
| `Scratchpad.DraftPeeled` | crates/codegen/hystersis-chat-state/src/compaction_utils.rs:790-811 | an untagged draft goes up to the last closing tag, even one that quotes that tag, and what follows stays |
| `Scratchpad.DraftThenSummary` | crates/codegen/hystersis-chat-state/src/compaction_utils.rs:747-812 | of a summary block that opens with such a draft, what follows comes back whole but for blank lines |
| `SummaryFormat.FormattedIsClean` | crates/codegen/hystersis-chat-state/src/compaction_utils.rs:783-789 | for every input: trimmed, none of the six control tokens, no three newlines in a row |
| `SummaryFormat.FormattingIsIdempotent` | crates/codegen/hystersis-chat-state/src/compaction_utils.rs:751-789 | formatting a formatted summary changes nothing |
| `SummaryFormat.NeutralizedLacksAll` | crates/codegen/hystersis-chat-state/src/compaction_utils.rs:817-824 | no token survives and defusing one creates none of the others |
| `SummaryFormat.CollapseCommutes` | crates/codegen/hystersis-chat-state/src/compaction_utils.rs:783-787 | collapsing newlines and defusing a token commute |
| `SummaryFormat.NumberedSummarySurvives` | crates/codegen/hystersis-chat-state/src/compaction_utils.rs:747-812 | a block, with any space before it, whose body is digit-led and has no zero-width space comes back whole but for blank lines, whatever tokens it quotes |
| `SummaryLaws.TextAroundIsKept` | crates/codegen/hystersis-chat-state/src/compaction_utils.rs:775-789 | for any text before and after the summary block, quoting what tokens it may: it is kept, the tags go, the heading comes, and the trimmed body is kept if it is no draft; all up to zero-width spaces, blank lines and the space around the whole |
| `SummaryLaws.PlainTextIsKept` | crates/codegen/hystersis-chat-state/src/compaction_utils.rs:751-789 | text with neither a scratchpad nor a closed block is kept, up to the same |
| `SummaryLaws.NestedWrapperIsTakenOff` | crates/codegen/hystersis-chat-state/src/compaction_utils.rs:800-812 | a second summary tag at the start of the block goes too |
| `SummaryLaws.ScratchpadBeforeBlock` | crates/codegen/hystersis-chat-state/src/compaction_utils.rs:752-766 | a scratchpad in front of the block goes whatever text is before it, and that text is cleaned as if it had never been there |
| `SummaryLaws.ScratchpadBehindText` | crates/codegen/hystersis-chat-state/src/compaction_utils.rs:752-758 | behind visible text and with no block in the output, a scratchpad is kept like other text |
| `SummaryLaws.DigitLedIff` | crates/codegen/hystersis-chat-state/src/compaction_utils.rs:802-803 | what counts as leading with a number: a digit behind nothing but markdown decoration |
| `SummaryLaws.RunsOfNewlines` | crates/codegen/hystersis-chat-state/src/compaction_utils.rs:784-787 | a run of newlines is cut to two, and nothing around it changes |
| `Compaction.BuildCompactedHistory` | crates/codegen/hystersis-chat-state/src/compaction_utils.rs:954-1021 | pushing in order builds: the system message, the prefix, the instructions (the agents reminder at generation 0, the destination's later), query and agent message in their order, the tail in order, one message with the continuation sentence, the cleaned summary and the hint, the reminder; and nothing else |
| `Compaction.CompactionFixpointIff` | crates/codegen/hystersis-chat-state/src/compaction_utils.rs:515-532 | compacting twice equals compacting once if and only if there is no human turn, or the last one's query is not synthetic and survives wrapping |
| `Compaction.PlainQueryIsFixpoint` | crates/codegen/hystersis-chat-state/src/compaction_utils.rs:683-740 | a condition on the query's text alone that suffices for the fixpoint |
| `Compaction.ImageOnlyTurnIsNotFixpoint` | crates/codegen/hystersis-chat-state/src/compaction_utils.rs:388-406 | the concrete exception: an image-only last prompt |
| `Compaction.CompactedKeepsAnchors` | crates/codegen/hystersis-chat-state/src/compaction_utils.rs:954-1021 | for any conversation: the last human query is in the compacted history once or there is no human turn in it, the same of the latest agent message, and two of them keep their order |
| `Compaction.CompactedShape` | crates/codegen/hystersis-chat-state/src/compaction_utils.rs:687-740 | a compacted history is its fixed opening, the one or two anchors, and its fixed closing |
| `CompactionLaws.CompactedIsLaidOut` | crates/codegen/hystersis-chat-state/src/compaction_utils.rs:687-740 | a compaction is such a layout of the last human query and the latest agent message, without a tail |
| `CompactionLaws.TailByPosition` | crates/codegen/hystersis-chat-state/src/compaction_utils.rs:533-576 | the captured tail is exactly the assistants, results and agent messages with no human turn or agent message after them, in order, the results with their ids and the placeholder text |
| `CompactionLaws.QueryOfLastHumanTurn` | crates/codegen/hystersis-chat-state/src/compaction_utils.rs:429-444 | the captured query is read from the last human turn, and there is none if there is no such turn |
| `CompactionLaws.LastAgentMessage` | crates/codegen/hystersis-chat-state/src/compaction_utils.rs:515-532 | the captured agent message is the last one, placed before the human turn exactly if a human turn comes after it |
| `CompactionLaws.JoinedTextOfParts` | crates/codegen/hystersis-sampling-types/src/conversation.rs:1334-1351 | a message's text is its text parts joined by newlines, images passed over |
| `Compaction.TailHasNoOrphan` | crates/codegen/hystersis-chat-state/src/compaction_utils.rs:533-576 | if no anchor lies between a call and its result, the tail since the last anchor has no orphan; reminders in between do no harm |
| `Compaction.RebuiltPassesValidation` | crates/codegen/hystersis-chat-state/src/compaction_utils.rs:954-1056 | and the history rebuilt around that tail validates |
| `LineReader.ReadLineCapped` | crates/codegen/hystersis-acp-lib/src/line_reader.rs:140-177 | for any chunking, unless a fill of the buffer failed: the next line is returned if and only if it is within the cap, and the cap error is raised if and only if it is longer; the I/O error if and only if the last fill failed; and the buffer stays within the cap plus one chunk |
| `LineReader.SendLines` | crates/codegen/hystersis-acp-lib/src/line_reader.rs:71-87 | all that the reader task sends depends on the source alone: the messages of its lines up to the first over the cap, cut short by a failure if and only if the source failed |
| `LineReader.LinesAreTheSource` | crates/codegen/hystersis-acp-lib/src/line_reader.rs:136-177 | the lines concatenate to the source, each has its newline last, only the final one may lack it |
| `LineReader.MessagesAreLines` | crates/codegen/hystersis-acp-lib/src/line_reader.rs:71-87 | with no line over the cap exactly the lines are sent |
| `LineReader.LineBufferedRead.PollRead` | crates/codegen/hystersis-acp-lib/src/line_reader.rs:96-133 | a poll serves, of what is stashed or else of the first line queued, as many bytes as the read buffer holds or as there are, and stashes the others; it fails exactly when nothing is stashed and a failure is first, is pending exactly when nothing is stashed or queued and the channel is open |
| `LineReader.RunKeepsInv` | crates/codegen/hystersis-acp-lib/src/line_reader.rs:62-133 | in every state of every interleaving: served, stashed, queued, held by the reader task and unread bytes concatenate to the source, and the channel holds consecutive whole lines |
| `LineReader.PendingOnlyBetweenLines` | crates/codegen/hystersis-acp-lib/src/line_reader.rs:96-133 | a poll answers pending only when what was served is a whole number of source lines |
| `LineReader.ServesWithinTheLine` | crates/codegen/hystersis-acp-lib/src/line_reader.rs:96-133 | in every reachable state a poll serves the rest of the current source line cut to the read buffer: never more bytes than that holds, never past the line's end |
| `LineReader.EmptyReadMeansEverythingServed` | crates/codegen/hystersis-acp-lib/src/line_reader.rs:96-133 | with a non-empty read buffer an empty answer is given exactly at the end, and without an error everything has then been served |
| `LineReader.CapErrorIsExact` | crates/codegen/hystersis-acp-lib/src/line_reader.rs:71-87 | a run that ends without a source error raised the cap error if and only if some line is over the cap |
| `LineReader.ProgressUntilOver` | crates/codegen/hystersis-acp-lib/src/line_reader.rs:62-133 | no reachable state short of the end is stuck, and each productive step uses up work |
| `LineReader.InterleavingSendsTheSame` | crates/codegen/hystersis-acp-lib/src/line_reader.rs:71-87 | under every interleaving a reader task that has stopped has sent what its loop alone sends |
| `BundlePaths.SanitizeIsFilter` | crates/codegen/hystersis-bundle/src/lib.rs:403-443 | validation returns its input or nothing |
| `BundlePaths.SanitizeIsIdempotent` | crates/codegen/hystersis-bundle/src/lib.rs:403-443 | what is accepted is accepted again unchanged |
| `BundlePaths.BuiltPathIsAccepted` | crates/codegen/hystersis-bundle/src/lib.rs:491-510 | every path built from a kind and a valid name is accepted |
| `BundlePaths.BuiltPathsAreDistinct` | crates/codegen/hystersis-bundle/src/lib.rs:491-496 | different kinds or names never share a path |
| `BundlePaths.AcceptedPathStaysInside` | crates/codegen/hystersis-bundle/src/lib.rs:403-443 | an accepted path resolves lexically to itself, below one of the five kind directories |
| `BundlePaths.AcceptedIff` | crates/codegen/hystersis-bundle/src/lib.rs:403-443 | the accepted paths are exactly the built ones of the four flat kinds and the well-formed ones below a skill's own directory |
| `BundlePaths.ArchivePathIsAccepted` | crates/codegen/hystersis-bundle/src/lib.rs:445-456 | an archive entry maps to its own path, less a leading subagents directory, and only to an accepted one |
| `BundleLaws.BuiltPathsAre` | crates/codegen/hystersis-bundle/src/lib.rs:491-496 | the five literal paths a name gives |
| `BundleLaws.UsableName` | crates/codegen/hystersis-bundle/src/lib.rs:498-510 | a name is accepted if and only if it is not empty, `.` or `..` and has no separator or control character |
| `BundleLaws.AcceptedHasNoControl` | crates/codegen/hystersis-bundle/src/lib.rs:403-443 | an accepted path is relative and has no backslash and no control character |
| `BundleLaws.SkillPathIff` | crates/codegen/hystersis-bundle/src/lib.rs:424-441 | below a skill's directory any usable component may follow, to any depth, and nothing else |
| `BundleLaws.MapsToIff` | crates/codegen/hystersis-bundle/src/lib.rs:445-456 | an archive path maps to a cache path if and only if that is accepted and the archive path is it under `subagents/`, or is it itself below `skills/` or `workflows/` |
| `BundleCache.Cache.WriteBundleToCache` | crates/codegen/hystersis-bundle/src/lib.rs:119-175 | a success leaves each path as the slot specification says; a failure leaves protected files and records alone; an invalid name changes nothing; without I/O faults success and each refusal happen if and only if manifest and names say so |
| `BundleCache.Cache.ExtractBundleArchive` | crates/codegen/hystersis-bundle/src/lib.rs:177-283 | the same for extraction: without I/O faults, success and each of the three refusals happen if and only if their condition on manifest, limits, entries and version holds; an archive refused at an entry or for want of a version leaves exactly the files before that point installed and the records as they were |
| `BundleCache.StopsAtOnePlace` | crates/codegen/hystersis-bundle/src/lib.rs:190-265 | an archive is refused while reading if and only if it has an entry at which reading stops, and it has one at most |
| `BundleCache.Cache.PruneRemovedFiles` | crates/codegen/hystersis-bundle/src/lib.rs:313-337 | in any order of the records: unretained managed files go, modified ones keep their record |
| `BundleCache.Cache.InstallFile` | crates/codegen/hystersis-bundle/src/lib.rs:376-386 | one file is written, or left to its owner with its old record |
| `BundleCache.Cache.BundleFiles` | crates/codegen/hystersis-bundle/src/lib.rs:466-489 | in any map order the bundle's files come out once each, and an invalid name refuses them all |
| `BundleCache.InstallAllMeans` | crates/codegen/hystersis-bundle/src/lib.rs:246-264 | the closed form of installing several entries at one path: the first that stops matching the record stays |
| `BundleCache.BundleContentsAtMostOne` | crates/codegen/hystersis-bundle/src/lib.rs:466-496 | a JSON bundle has at most one file for a path, never a workflow, always at an accepted path |
| `BundleLaws.BundleBrings` | crates/codegen/hystersis-bundle/src/lib.rs:466-496 | each of the four maps is written under its own directory and extension, in both directions, and nothing else is written |
| `BundleLaws.ContentsByPosition` | crates/codegen/hystersis-bundle/src/lib.rs:190-265 | the bytes an archive brings for a path are those of exactly its entries for that path, with or without a leading `./`, in archive order |
| `BundleLaws.VersionIsTheLast` | crates/codegen/hystersis-bundle/src/lib.rs:225-233 | the version is that of the last `bundle.json`, and empty without one |
| `BundleLaws.AcceptableIff` | crates/codegen/hystersis-bundle/src/lib.rs:190-245 | an archive is within the limits if and only if it has a thousand files at most and fifty mebibytes in all, and each entry can be read, is within a mebibyte and parses if it is a `bundle.json` |
| `BundleLaws.TalliesAddUp` | crates/codegen/hystersis-bundle/src/lib.rs:199-217 | those counts and sizes add up over the entries; a regular file counts one and its size, anything else nothing |
| `BundleLaws.ReplaceableIff` | crates/codegen/hystersis-bundle/src/lib.rs:376-401 | a file may be replaced if and only if it is missing or its bytes are those on record at an accepted path |
| `BundleLaws.ExtractOutcome` | crates/codegen/hystersis-bundle/src/lib.rs:177-283 | after an extract a replaceable path with one entry holds that entry's bytes, under management, and one with none is gone; any other file is as it was |
| `BundleLaws.JsonOutcome` | crates/codegen/hystersis-bundle/src/lib.rs:119-175 | the same after a write, for what the bundle has under the literal path; workflows stay |
| `BundleRuns.ProtectedStaysUntouched` | crates/codegen/hystersis-bundle/src/lib.rs:119-283 | over any run of writes and extracts, bailed ones included, with user edits, a file that differs from its record or has none is never overwritten, removed or taken back into management |
| `BundleRuns.RefusedPathsUntouched` | crates/codegen/hystersis-bundle/src/lib.rs:388-443 | neither operation touches a path that validation refuses |
| `BundleRuns.JsonWriteOutcome` | crates/codegen/hystersis-bundle/src/lib.rs:119-175 | after a write each record matches its file, or is the old record of a modified file or of a carried workflow; workflows are untouched; unmodified files not in the bundle are gone |
| `BundleRuns.JsonWriteIsIdempotent` | crates/codegen/hystersis-bundle/src/lib.rs:119-175 | writing the same bundle again changes neither disk nor manifest |
| `BundleRuns.RevertAllowsUpdate` | crates/codegen/hystersis-bundle/src/lib.rs:735-801 | putting the recorded bytes back after a skipped write lets later writes update or prune the file |
| `BundleRuns.ExtractedFileIsManagedIff` | crates/codegen/hystersis-bundle/src/lib.rs:246-264 | after an extract a file the archive could write matches its record if and only if all its entries but the last have the bytes on record |
| `BundleRuns.RepeatedEntryLosesManagement` | crates/codegen/hystersis-bundle/src/lib.rs:246-264 | the concrete archive that holds one path twice: extracted over a managed file, it leaves its first bytes beside the old record |
| `BundleRuns.RepeatingArchiveIsAccepted` | crates/codegen/hystersis-bundle/src/lib.rs:190-265 | that archive is accepted whenever its contents are within the entry limit and its version parses |
| `BundleRuns.ExtractAgainUnchangedIff` | crates/codegen/hystersis-bundle/src/lib.rs:177-283 | exactly when extracting the same archive again changes nothing at a path, in terms of what was there before and of the entries |
| `BundleRuns.ExtractIsIdempotentWithoutRepeats` | crates/codegen/hystersis-bundle/src/lib.rs:177-283 | without repeated paths a second extract changes neither disk nor manifest |
| `BundleRuns.UnversionedArchiveFreezes` | crates/codegen/hystersis-bundle/src/lib.rs:267-269 | an archive without a version bails after its files are in; such a file then counts as the user's, unless its bytes are those on record, and no later operation replaces it |
| `BundleRuns.RefusedArchiveFreezes` | crates/codegen/hystersis-bundle/src/lib.rs:190-265 | the same, for the files before the entry at which an archive is refused for its limits or for what cannot be read; all other paths are as before |
| `BundleRuns.RefusedAfterAFile` | crates/codegen/hystersis-bundle/src/lib.rs:190-269 | concrete archives refused in both ways after their first file is in |
| `ActiveSessions.Retain` | crates/codegen/hystersis-active-sessions/src/lib.rs:46-57 | the sessions with another id stay, in order |
| `ActiveSessions.Partition` | crates/codegen/hystersis-active-sessions/src/lib.rs:66-72 | the live ones stay and the dead ones are returned, both in order |
| `ActiveSessions.MutationByPosition` | crates/codegen/hystersis-active-sessions/src/lib.rs:46-72 | what each mutation stores and takes out, by position in the list |
| `ActiveSessions.Root.WriteDataFileAtomic` | crates/codegen/hystersis-active-sessions/src/lib.rs:160-171 | the data file is replaced whole or not at all, files already opened keep their bytes, and it fails only where the system does |
| `ActiveSessions.Root.LockedMutate` | crates/codegen/hystersis-active-sessions/src/lib.rs:122-130 | on success the stored list changed by position: registering drops exactly the sessions with the new one's id and puts it last, unregistering drops those with the id, collecting stores exactly the live positions and returns exactly the others; order is kept; failure changes nothing stored and comes only where the system fails |
| `ActiveSessions.StepKeepsInv` | crates/codegen/hystersis-active-sessions/src/lib.rs:81-171 | every step of every process, crash and failure included, keeps the invariant |
| `ActiveSessions.DataIsCommittedLog` | crates/codegen/hystersis-active-sessions/src/lib.rs:46-171 | in every state of every run the data file decodes to the committed mutations applied one at a time in commit order |
| `ActiveSessions.ListSeesCommittedState` | crates/codegen/hystersis-active-sessions/src/lib.rs:74-77 | a reader without the lock returns the state committed when it opened the file |
| `ActiveSessions.IdsStayDistinct` | crates/codegen/hystersis-active-sessions/src/lib.rs:46-72 | no session id ever appears twice if none did at the start |
| `ActiveSessions.ReplayConserves` | crates/codegen/hystersis-active-sessions/src/lib.rs:46-72 | over any log, sessions put in are still there or were taken out, once |
| `ActiveSessions.ReturnsWhatItCommitted` | crates/codegen/hystersis-active-sessions/src/lib.rs:46-130 | a call that returns success has its own mutation in the log exactly once, committed between call and return; that entry changed the list, by position, as the operation promises, and the call returns what it took out; one that returns an error or contention never has any |
| `ActiveSessions.ReadHasEffect` | crates/codegen/hystersis-active-sessions/src/lib.rs:66-72 | what a call is about to store and return once it has read the file, by position, for the liveness it was told |
| `ActiveSessions.InsideLockIsLockedMutate` | crates/codegen/hystersis-active-sessions/src/lib.rs:81-130 | while a process is inside the lock, whatever others do, the files change as `Root.LockedMutate` says: by its own mutation once committed, and before that not as far as a reader can see |
| `ActiveSessions.OneInsideLock` | crates/codegen/hystersis-active-sessions/src/lib.rs:81-120 | one process at most is between lock and unlock, the lock is never held by one that is not, and a free lock can be taken |
| `AgentDiscovery.DiscoverWithHome` | crates/codegen/hystersis-agent/src/discovery.rs:231-248 | the directory scan with its set of seen names yields exactly one definition for each declared name, the first by priority |
| `AgentDiscovery.LoadDefinitionsFromDir` | crates/codegen/hystersis-agent/src/discovery.rs:665-700 | one directory's share of that |
| `AgentDiscovery.MergeDiscovered` | crates/codegen/hystersis-agent/src/discovery.rs:92-173 | the merge loop lists under each name its best eligible agent, else the built-in subagent, once |
| `AgentDiscovery.AllSubagents` | crates/codegen/hystersis-agent/src/discovery.rs:79-181 | the whole list, filtered by toggles, with distinct names |
| `DiscoveryLaws.ListedIsTheFirst` | crates/codegen/hystersis-agent/src/discovery.rs:79-181 | under each name not toggled off there is exactly the first file to declare it, by directory and position; only a project's file takes the name of a built-in subagent, which otherwise stands there itself |
| `DiscoveryLaws.TogglesOnlyTakeAway` | crates/codegen/hystersis-agent/src/discovery.rs:79-91 | nothing toggled off is listed, and a toggle takes away nothing else |
| `DiscoveryLaws.UserBeforeBundled` | crates/codegen/hystersis-agent/src/discovery.rs:196-224 | the user's directories come before the bundled ones, the current home first |
| `DiscoveryLaws.UserDirsAre` | crates/codegen/hystersis-agent/src/discovery.rs:196-224 | which directories are the user's |
| `DiscoveryLaws.BundledDirsAre` | crates/codegen/hystersis-agent/src/discovery.rs:196-224 | which are bundled |
| `DiscoveryLaws.ProjectDirsFirst` | crates/codegen/hystersis-agent/src/discovery.rs:231-248 | the project's directories come before all of them, in their order |
| `DiscoveryLaws.LookUpOrder` | crates/codegen/hystersis-agent/src/discovery.rs:253-305 | a look-up answers with the first project file of that name, else with the built-in of that name, else with the first user or bundled file, else with nothing |
| `AgentDiscovery.VisibleIsCallableIff` | crates/codegen/hystersis-agent/src/discovery.rs:66-181 | where the files that bear on its name are named after their agents, a listed entry is resolved to its own scope and description if and only if it is not a user-level or bundled agent named after a built-in outside the subagents |
| `AgentDiscovery.CallableIsVisibleIff` | crates/codegen/hystersis-agent/src/discovery.rs:258-305 | under the same condition, a name has an agreeing entry if and only if it is toggled on and the look-up answers with a file or an offered built-in |
| `AgentDiscovery.ListedButNotCallable` | crates/codegen/hystersis-agent/src/discovery.rs:258-286 | the failing family: a user file named after any built-in that is not a subagent is listed and cannot be called |
| `AgentDiscovery.MisnamedFileIsNotCallable` | crates/codegen/hystersis-agent/src/discovery.rs:610-700 | what fails without that condition: a file whose stem is not its declared name is listed under the name, which finds nothing, and found by the stem, which is not listed |
| `AgentDiscovery.ByNameIsFirstDeclared` | crates/codegen/hystersis-agent/src/discovery.rs:610-663 | first match by stem is first match by declared name |
| `AgentDiscovery.FromStrOfName` | crates/codegen/hystersis-agent/src/config.rs:684-711 | built-in names parse back to themselves, so they are distinct |

## Left out

- The chat-state actor, its handle and its commands: message forwarding around the functions modelled here.
- Token estimation: an arbitrary function from items to `nat`; the overflow of its `u64` sum is not modelled.
- JSON, YAML, gzip, tar and SHA-256: codecs are arbitrary functions with the round trip assumed where it is needed, the checksum is an arbitrary function, an archive is a sequence of entries any of which may be unreadable.
- Item fields that no modelled function reads or changes, such as reasoning blocks and model metadata; the state context's task, todo and path lists, which capture copies and rebuilding does not read.
- `prepare_conversation_*`, `strip_reasoning_blocks`, `strip_images`, `bound_captured_output`, `extract_messages_since_last_user`: single filters.
- The alternative summary carrier, which is not compiled in.
- The consumer dropping its end of the line channel, which only ends the reader task early.
- Wake-ups and fairness of the scheduler: progress is stated for any schedule that keeps taking productive steps.
- File-system matters below paths: symbolic links, case folding, a file where a directory is needed (one of the I/O failures), permissions, power loss and `fsync`.
- A user editing `manifest.json` or the session data file by hand; initial contents are arbitrary.
- `is_managed_bundle_file` and `count_entries_by_prefix`: read-only queries.
- `ActiveSessions.Partition`: liveness is an arbitrary answer for each position, not an operating-system call.
- `AgentDiscovery.VisibleIsCallableIff`: directories that exist but cannot be listed, and names holding a path separator, are not modelled.
- Plugin agents, the configuration source shown with an entry, and every field of a definition other than name, description and scope.
- Order of removal in `RemoveDescending`: the source sorts and deduplicates a vector of indices; the model takes the largest of a set each time, which visits the same indices in the same order.
