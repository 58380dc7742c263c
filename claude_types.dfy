/**
 * The records the log reader produces and the stores hold. Times are
 * milliseconds since the epoch (`Date.getTime()`). Fields that the reader
 * copies from a parsed record without checking them keep the parsed
 * value (`JsValue`): the declared TypeScript types are not enforced at run
 * time, and the reader does not enforce them either.
 */
module ClaudeTypes {

  import opened Optional
  import opened JsValues

  datatype Message = Message(role: JsValue, content: JsValue)

  /** One record of a session transcript; `kind` is the record's `type`. */
  datatype Conversation = Conversation(
    id: JsValue,
    parentUuid: JsValue,
    sessionId: string,
    kind: JsValue,
    message: Message,
    timestamp: int,
    tools: JsValue)

  datatype TodoItem = TodoItem(
    id: JsValue,
    content: JsValue,
    status: JsValue,
    priority: JsValue,
    sessionId: string,
    createdAt: int,
    updatedAt: int)

  datatype ClaudeSession = ClaudeSession(
    id: string,
    projectId: string,
    conversations: seq<Conversation>,
    todos: seq<TodoItem>,
    startTime: int,
    lastUpdate: int,
    messageCount: nat,
    duration: int)

  datatype ClaudeProject = ClaudeProject(
    id: string,
    path: string,
    name: string,
    sessions: seq<ClaudeSession>,
    lastActivity: int,
    totalMessages: int,
    totalSessions: nat)

  /** `averageSessionDuration` is a JavaScript number; here an exact rational. */
  datatype ProjectStats = ProjectStats(
    totalProjects: nat,
    activeProjects: nat,
    totalSessions: nat,
    activeSessions: nat,
    totalMessages: int,
    totalTodos: nat,
    completedTodos: nat,
    averageSessionDuration: real)

  datatype DateRange = DateRange(start: int, end: int)

  /** `ConversationFilter`: every field is optional; `kind` is the `type` filter. */
  datatype ConversationFilter = ConversationFilter(
    kind: Option<string>,
    dateRange: Option<DateRange>,
    searchTerm: Option<string>,
    sessionId: Option<string>,
    projectId: Option<string>)

  /** The empty filter object `{}`. */
  const NoFilters: ConversationFilter := ConversationFilter(None, None, None, None, None)

  /** An optional string field used as an `if (filters.x)` condition: present and non-empty. */
  predicate Active(field: Option<string>) {
    field.Some? && field.value != ""
  }

  /** `conversation.message`, as the object it is when a view renders the whole message. */
  function MessageValue(m: Message): JsValue {
    Obj(map["role" := m.role, "content" := m.content])
  }
}
