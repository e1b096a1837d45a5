/** The conversation items every chat-state operation works on. */
module Conversation {
  import opened Common

  datatype ContentPart = TextPart(text: string) | ImagePart(url: string)

  datatype SyntheticReason =
    | CompactionMeta | SystemReminder | ProjectInstructions | AutoContinue | AutoRecovery
    | Interjection | AgentMessage | TaskCompleted | SubagentCompleted | NotificationDrain
    | GoalSummary | GoalClassifierNudge | SchedulerFired | StopHookFeedback
    | WorkingDirectorySwitch | UnknownReason

  datatype PriorTurnInterrupt =
    | MidTurnAbort | PermissionRejected | PermissionCancelled | UnknownInterrupt

  datatype UserItem = UserItem(
    content: seq<ContentPart>,
    syntheticReason: Option<SyntheticReason>,
    cwdGeneration: Option<nat>,
    priorTurnInterrupt: Option<PriorTurnInterrupt>,
    promptIndex: Option<nat>)

  datatype ToolCall = ToolCall(id: string, name: string, arguments: string)

  datatype Item =
    | System(systemText: string)
    | User(user: UserItem)
    | Assistant(content: string, toolCalls: seq<ToolCall>, modelId: Option<string>)
    | ToolResult(toolCallId: string, output: string, images: seq<ContentPart>)
    | BackendToolCall(summary: string)
    | Reasoning(thinking: string)
  {
    predicate DeclaresCall(id: string) {
      Assistant? && exists k :: 0 <= k < |toolCalls| && toolCalls[k].id == id
    }

    predicate IsAgentMessage() {
      User? && user.syntheticReason == Some(AgentMessage)
    }
  }

  function PlainUser(text: string, reason: Option<SyntheticReason>): Item {
    User(UserItem([TextPart(text)], reason, None, None, None))
  }

  /** The ids an assistant's tool calls declare. */
  function CallIds(calls: seq<ToolCall>): set<string> {
    set k | 0 <= k < |calls| :: calls[k].id
  }

  /** The text parts of a user message, joined by newlines. */
  function JoinedText(parts: seq<ContentPart>): string {
    if parts == [] then ""
    else if parts[0].ImagePart? then JoinedText(parts[1..])
    else if HasText(parts[1..]) then parts[0].text + "\n" + JoinedText(parts[1..])
    else parts[0].text
  }

  predicate HasText(parts: seq<ContentPart>) {
    exists k :: 0 <= k < |parts| && parts[k].TextPart?
  }

  predicate HasImage(parts: seq<ContentPart>) {
    exists k :: 0 <= k < |parts| && parts[k].ImagePart?
  }
}
