/** The stored message, as far as the projections of this model look at it. */
module Messages {

  import opened Results

  datatype Role = User | Assistant | Tool | System | Summary

  datatype PartKind = Text | ToolUse | ToolResult | Media

  datatype Part = Part(
    kind: PartKind,
    name: string,
    callId: string,
    ok: bool,
    content: string,
    modelOutput: Option<string>,
    mcpResult: Option<string>)

  /** `notice` and `actionSource` are what the metadata decodes to: the widget
      notification it carries, and the message a widget action answers ("" for none). */
  datatype Message = Message(
    id: string,
    turnId: string,
    turnIndex: int,
    role: Role,
    parts: seq<Part>,
    notice: Option<string>,
    actionSource: string)

  /** Only user messages carry widget notifications. */
  function WidgetNotification(m: Message): Option<string> {
    if m.role.User? then m.notice else None
  }

  function WidgetActionSource(m: Message): string {
    if m.role.User? then m.actionSource else ""
  }

  /** A turn is opened by its first user or system message; notification receipts
      and later steering do not count. */
  predicate IsInputTurnBoundary(m: Message) {
    && m.turnId != "" && m.turnIndex == 0
    && WidgetNotification(m).None?
    && (m.role.User? || m.role.System?)
  }

  /** The ids of some messages. */
  function Ids(ms: seq<Message>): set<string> {
    set i | 0 <= i < |ms| :: ms[i].id
  }
}
