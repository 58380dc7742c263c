/**
 * The pure logic of the todo board: the three status columns, the view
 * chosen for a missing session or an empty todo list, the priority badge
 * and the "Updated" note.
 */
module TodoBoardView {

  import opened Optional
  import opened Seqs
  import opened JsValues
  import opened ClaudeTypes
  import opened ClaudeFs

  /** `t.status === status`: a strict comparison with a string. */
  function StatusIs(status: string): TodoItem -> bool {
    (t: TodoItem) => t.status == Str(status)
  }

  function Pending(todos: seq<TodoItem>): seq<TodoItem> {
    Filter(todos, StatusIs("pending"))
  }

  function InProgress(todos: seq<TodoItem>): seq<TodoItem> {
    Filter(todos, StatusIs("in_progress"))
  }

  function Completed(todos: seq<TodoItem>): seq<TodoItem> {
    Filter(todos, StatusIs("completed"))
  }

  /** The status is one of the three that have a column. */
  predicate HasColumn(t: TodoItem) {
    t.status == Str("pending") || t.status == Str("in_progress") || t.status == Str("completed")
  }

  /**
   * The three columns of a list of length n have at most n cards in total,
   * exactly n when every status has a column.
   */
  lemma {:induction false} ColumnsCount(todos: seq<TodoItem>)
    ensures |Pending(todos)| + |InProgress(todos)| + |Completed(todos)| <= |todos|
    ensures (forall i :: 0 <= i < |todos| ==> HasColumn(todos[i])) ==>
      |Pending(todos)| + |InProgress(todos)| + |Completed(todos)| == |todos|
  {
    if todos != [] {
      ColumnsCount(todos[1..]);
      assert forall i :: 1 <= i < |todos| ==> todos[i] == todos[1..][i - 1];
    }
  }

  /**
   * Each column holds, in order, exactly the todos with its status; so no
   * todo appears in two columns.
   */
  lemma ColumnsPartition(todos: seq<TodoItem>)
    ensures IsSubseq(Pending(todos), todos) && IsSubseq(InProgress(todos), todos) && IsSubseq(Completed(todos), todos)
    ensures forall t :: t in Pending(todos) <==> t in todos && t.status == Str("pending")
    ensures forall t :: t in InProgress(todos) <==> t in todos && t.status == Str("in_progress")
    ensures forall t :: t in Completed(todos) <==> t in todos && t.status == Str("completed")
    ensures forall t :: !(t in Pending(todos) && t in InProgress(todos))
    ensures forall t :: !(t in Pending(todos) && t in Completed(todos))
    ensures forall t :: !(t in InProgress(todos) && t in Completed(todos))
  {
    FilterIsSubseq(todos, StatusIs("pending"));
    FilterIsSubseq(todos, StatusIs("in_progress"));
    FilterIsSubseq(todos, StatusIs("completed"));
    FilterMembers(todos, StatusIs("pending"));
    FilterMembers(todos, StatusIs("in_progress"));
    FilterMembers(todos, StatusIs("completed"));
  }

  datatype Board =
    | SelectSession
    | NoTodos
    | Columns(pending: seq<TodoItem>, inProgress: seq<TodoItem>, completed: seq<TodoItem>)

  /**
   * What the board shows: a prompt without a selected session, a notice
   * when the session has no todos, else the three columns.
   */
  function BoardOf(selected: Option<ClaudeSession>): (b: Board)
    ensures selected.None? <==> b == SelectSession
    ensures b == NoTodos <==> selected.Some? && selected.value.todos == []
    ensures b.Columns? ==>
      && b.pending == Pending(selected.value.todos)
      && b.inProgress == InProgress(selected.value.todos)
      && b.completed == Completed(selected.value.todos)
  {
    match selected
    case None => SelectSession
    case Some(s) =>
      // `selectedSession.todos || []`: a list, even an empty one, is truthy
      var todos := s.todos;
      if |todos| == 0 then NoTodos
      else Columns(Pending(todos), InProgress(todos), Completed(todos))
  }

  /** `getPriorityColor`: the badge variant for a priority; anything unrecognised is "outline". */
  function PriorityVariant(priority: JsValue): (r: string)
    ensures r in {"destructive", "default", "secondary", "outline"}
    ensures r == "destructive" <==> priority == Str("high")
    ensures r == "default" <==> priority == Str("medium")
    ensures r == "secondary" <==> priority == Str("low")
  {
    if priority == Str("high") then "destructive"
    else if priority == Str("medium") then "default"
    else if priority == Str("low") then "secondary"
    else "outline"
  }

  /**
   * The "Updated" note appears only when the update time differs from the
   * creation time (the update time is a date, which is always truthy).
   */
  predicate ShowUpdated(t: TodoItem) {
    t.updatedAt != t.createdAt
  }

  /**
   * A todo whose file gives no update time is stamped with the reading
   * clock: it shows "Updated" (at the time it was read) unless its creation
   * time is that same clock reading.
   */
  lemma MissingUpdateShowsReadTime(v: JsValue, sessionId: string, env: Env)
    requires !IsNullish(v) && !Truthy(OptMember(v, "updatedAt"))
    ensures TodoOf(v, sessionId, env).Some? && |TodoOf(v, sessionId, env).value| == 1
    ensures var t := TodoOf(v, sessionId, env).value[0];
      t.updatedAt == env.now && (ShowUpdated(t) <==> t.createdAt != env.now)
    ensures !Truthy(OptMember(v, "createdAt")) ==> !ShowUpdated(TodoOf(v, sessionId, env).value[0])
  {
  }
}
