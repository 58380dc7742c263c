/**
 * The log reader: it walks the `~/.claude` tree and builds projects, sessions,
 * conversations and todos, and the statistics computed from them.
 *
 * The file system is an in-memory value. A read that fails is `None` and an
 * entry whose `stat` fails is `Dangling`. JSON decoding, JSON encoding, date
 * parsing and the random-id generator are functions in an environment `Env`.
 * Every `new Date()` and `Date.now()` becomes a read of `env.now`.
 */
module ClaudeFs {

  import opened Optional
  import opened Seqs
  import opened Text
  import opened JsValues
  import opened ClaudeTypes

  // ---------------------------------------------------------------- the tree

  datatype Node =
    | File(text: Option<string>)              // None: `readFile` throws
    | Dir(listing: Option<seq<DirEntry>>)     // None: `readdir` throws
    | Dangling                                // `stat` throws

  datatype DirEntry = DirEntry(name: string, node: Node)

  /** The `projects`, `todos` and `statsig` directories under `~/.claude`. */
  datatype ClaudeDir = ClaudeDir(projects: Node, todos: Node, statsig: Node)

  /**
   * The reader's view of the outside world. `parse` is `JSON.parse` (None:
   * it throws), `stringify` is `JSON.stringify`, `parseDate` is
   * `new Date(v).getTime()` for a value that is not already a number, and
   * `randomId(sessionId, line)` stands for `Math.random().toString(36)`
   * called while reading line `line` of that session.
   */
  datatype Env = Env(
    now: int,
    parse: string -> Option<JsValue>,
    stringify: JsValue -> string,
    parseDate: JsValue -> int,
    randomId: (string, nat) -> string)

  function ReadDir(n: Node): Option<seq<DirEntry>> {
    if n.Dir? then n.listing else None
  }

  function ReadFile(n: Node): Option<string> {
    if n.File? then n.text else None
  }

  const DAY_MS: int := 24 * 60 * 60 * 1000

  /** `new Date(v).getTime()`. */
  function DateOf(v: JsValue, env: Env): int {
    if v.Num? then v.n else env.parseDate(v)
  }

  /** `new Date(v || Date.now()).getTime()`. */
  function DateOrNow(v: JsValue, env: Env): (t: int)
    ensures !Truthy(v) ==> t == env.now
  {
    if Truthy(v) then DateOf(v, env) else env.now
  }

  // --------------------------------------------------- normalising a record

  /**
   * The message body of a parsed record. It tries, in order: a string
   * `message`; the `content`, then the `text`, of an object `message`, and
   * otherwise that object's JSON text; then the record's own `content` and
   * `text`; and finally a fixed placeholder.
   */
  function MessageBody(data: JsValue, env: Env): JsValue
    requires !IsNullish(data)
  {
    var msg := OptMember(data, "message");
    if msg.Str? then msg
    else if IsObject(msg) then
      var content := OptMember(msg, "content");
      var text := OptMember(msg, "text");
      if Truthy(content) then content
      else if Truthy(text) then text
      else Str(env.stringify(msg))
    else
      var content := OptMember(data, "content");
      var text := OptMember(data, "text");
      if Truthy(content) then content
      else if Truthy(text) then text
      else Str("No content available")
  }

  /**
   * The record read from one parsed line, at line index `index`. It is None
   * when the parsed value is `null`: reading `data.message` then throws, and
   * the line is skipped.
   */
  function Normalize(data: JsValue, sessionId: string, index: nat, env: Env): (r: Option<Conversation>)
    ensures r.None? <==> IsNullish(data)
    ensures r.Some? ==> r.value.sessionId == sessionId
  {
    if IsNullish(data) then None
    else
      var id := OptMember(data, "id");
      var kind := Or(OptMember(data, "type"), Str("user"));
      var role := Or(Or(OptMember(OptMember(data, "message"), "role"), OptMember(data, "type")), Str("user"));
      Some(Conversation(
        id := if Truthy(id) then id else Str(env.randomId(sessionId, index)),
        parentUuid := OptMember(data, "parentUuid"),
        sessionId := sessionId,
        kind := kind,
        message := Message(role, MessageBody(data, env)),
        timestamp := DateOrNow(OptMember(data, "timestamp"), env),
        tools := OptMember(data, "tools")))
  }

  /** One line: it is parsed and then normalised; either step may throw, and then the line is skipped. */
  function ParseLine(line: string, sessionId: string, index: nat, env: Env): Option<Conversation> {
    match env.parse(line)
    case None => None
    case Some(data) => Normalize(data, sessionId, index, env)
  }

  /** `content.trim().split('\n').filter(line => line.trim())`. */
  function SessionLines(content: string): seq<string> {
    Filter(Split(Trim(content), '\n'), NonBlankLine)
  }

  /** The line filter of the session reader: `line.trim()` is not empty. */
  function NonBlankLine(line: string): bool {
    Trim(line) != ""
  }

  /** The records of `lines`, in order, with each line's own index. */
  function ConversationsOf(lines: seq<string>, sessionId: string, env: Env): (cs: seq<Conversation>)
    ensures |cs| <= |lines|
    ensures forall i :: 0 <= i < |cs| ==> cs[i].sessionId == sessionId
    decreases |lines|
  {
    if lines == [] then []
    else
      var n := |lines| - 1;
      ConversationsOf(lines[..n], sessionId, env)
        + match ParseLine(lines[n], sessionId, n, env) case Some(c) => [c] case None => []
  }

  /** The running minimum of the loop, started at `seed`. */
  function Earliest(cs: seq<Conversation>, seed: int): (t: int)
    ensures t <= seed
    ensures forall i :: 0 <= i < |cs| ==> t <= cs[i].timestamp
    ensures t == seed || exists i :: 0 <= i < |cs| && t == cs[i].timestamp
    decreases |cs|
  {
    if cs == [] then seed
    else
      var t0 := Earliest(cs[..|cs| - 1], seed);
      var ts := cs[|cs| - 1].timestamp;
      assert forall i :: 0 <= i < |cs| - 1 ==> cs[..|cs| - 1][i] == cs[i];
      if ts < t0 then ts else t0
  }

  /** The running maximum of the loop, started at `seed`. */
  function Latest(cs: seq<Conversation>, seed: int): (t: int)
    ensures seed <= t
    ensures forall i :: 0 <= i < |cs| ==> cs[i].timestamp <= t
    ensures t == seed || exists i :: 0 <= i < |cs| && t == cs[i].timestamp
    decreases |cs|
  {
    if cs == [] then seed
    else
      var t0 := Latest(cs[..|cs| - 1], seed);
      var ts := cs[|cs| - 1].timestamp;
      assert forall i :: 0 <= i < |cs| - 1 ==> cs[..|cs| - 1][i] == cs[i];
      if ts > t0 then ts else t0
  }

  lemma RunningBoundsSnoc(cs: seq<Conversation>, c: Conversation, seed: int)
    ensures Earliest(cs + [c], seed) == if c.timestamp < Earliest(cs, seed) then c.timestamp else Earliest(cs, seed)
    ensures Latest(cs + [c], seed) == if c.timestamp > Latest(cs, seed) then c.timestamp else Latest(cs, seed)
  {
    assert (cs + [c])[..|cs|] == cs;
  }

  lemma ConversationsOfSnoc(lines: seq<string>, i: nat, sessionId: string, env: Env)
    requires i < |lines|
    ensures ConversationsOf(lines[..i + 1], sessionId, env)
      == ConversationsOf(lines[..i], sessionId, env)
         + match ParseLine(lines[i], sessionId, i, env) case Some(c) => [c] case None => []
  {
    assert lines[..i + 1][..i] == lines[..i];
  }

  /** `sessionId.split('-')[0]`. */
  function ProjectIdOf(sessionId: string): (r: string)
    ensures r <= sessionId && '-' !in r
    ensures r == sessionId <==> '-' !in sessionId
    ensures r != sessionId ==> sessionId[|r|] == '-'
  {
    var r := BeforeFirst(sessionId, '-');
    assert r != sessionId ==> sessionId[|r|] == '-' by {
      if r != sessionId {
        var i := IndexOfChar(sessionId, '-');
        assert i >= 0;
        assert r == sessionId[..i];
      }
    }
    r
  }

  /** What the session reader returns when reading the session file throws. */
  function EmptySession(sessionId: string, now: int): ClaudeSession {
    ClaudeSession(sessionId, ProjectIdOf(sessionId), [], [], now, now, 0, 0)
  }

  /** The session stored in `file`, with its todos from `todosDir`. */
  function SessionOf(sessionId: string, file: Node, todosDir: Node, env: Env): ClaudeSession {
    match ReadFile(file)
    case None => EmptySession(sessionId, env.now)
    case Some(content) =>
      SessionFrom(sessionId, ConversationsOf(SessionLines(content), sessionId, env), TodosOf(sessionId, todosDir, env), env.now)
  }

  /** The session of the records `cs`: its times are the loop's running bounds, seeded with the clock reading `now`. */
  function SessionFrom(sessionId: string, cs: seq<Conversation>, todos: seq<TodoItem>, now: int): ClaudeSession {
    var start := Earliest(cs, now);
    var last := Latest(cs, now);
    ClaudeSession(sessionId, ProjectIdOf(sessionId), cs, todos, start, last, |cs|, last - start)
  }

  // ------------------------------------------------------------------ todos

  predicate IsTodoFileOf(name: string, sessionId: string) {
    StartsWith(name, sessionId) && EndsWith(name, ".json")
  }

  /** One element of a todo array; reading a field of `null` throws. */
  function TodoOf(v: JsValue, sessionId: string, env: Env): (r: Option<seq<TodoItem>>)
    ensures r.None? <==> IsNullish(v)
  {
    if IsNullish(v) then None
    else
      Some([TodoItem(
        OptMember(v, "id"), OptMember(v, "content"), OptMember(v, "status"), OptMember(v, "priority"),
        sessionId,
        DateOrNow(OptMember(v, "createdAt"), env),
        DateOrNow(OptMember(v, "updatedAt"), env))])
  }

  /** The todos of one file: an array gives one todo per element, any other JSON value none. */
  function TodoFileTodos(file: Node, sessionId: string, env: Env): Option<seq<TodoItem>> {
    match ReadFile(file)
    case None => None
    case Some(content) =>
      match env.parse(content)
      case None => None
      case Some(data) =>
        if data.Arr? then CollectAll(data.items, (v: JsValue) => TodoOf(v, sessionId, env)) else Some([])
  }

  function TodoFileOf(todoFile: DirEntry, sessionId: string, env: Env): Option<seq<TodoItem>> {
    TodoFileTodos(todoFile.node, sessionId, env)
  }

  /** The per-file step of the todo reader, as a function value. */
  function TodoFileReader(sessionId: string, env: Env): DirEntry -> Option<seq<TodoItem>> {
    (f: DirEntry) => TodoFileOf(f, sessionId, env)
  }

  /** The entries of the todo directory that belong to `sessionId`, in listing order. */
  function TodoFiles(entries: seq<DirEntry>, sessionId: string): seq<DirEntry> {
    Filter(entries, TodoFileFilter(sessionId))
  }

  /** The file filter of the todo reader. */
  function TodoFileFilter(sessionId: string): DirEntry -> bool {
    (e: DirEntry) => IsTodoFileOf(e.name, sessionId)
  }

  /** The session's todos; any failure while reading them gives none at all. */
  function TodosOf(sessionId: string, todosDir: Node, env: Env): seq<TodoItem> {
    match ReadDir(todosDir)
    case None => []
    case Some(entries) =>
      CollectAll(TodoFiles(entries, sessionId), TodoFileReader(sessionId, env)).GetOr([])
  }

  /** Reads one todo file element by element; None when reading, parsing or an element throws. */
  method ReadTodoFile(todoFile: DirEntry, sessionId: string, env: Env) returns (todos: Option<seq<TodoItem>>)
    ensures todos == TodoFileOf(todoFile, sessionId, env)
  {
    var content := ReadFile(todoFile.node);
    if content.None? {
      return None;
    }
    var todoData := env.parse(content.value);
    if todoData.None? {
      return None;
    }
    if !todoData.value.Arr? {
      return Some([]);
    }
    var items := todoData.value.items;
    var g := (v: JsValue) => TodoOf(v, sessionId, env);
    var pushed: seq<TodoItem> := [];
    var j := 0;
    while j < |items|
      invariant 0 <= j <= |items|
      invariant CollectAll(items[..j], g) == Some(pushed)
    {
      assert items[..j + 1][..j] == items[..j];
      var todo := items[j];
      if IsNullish(todo) {
        CollectAllFailedPrefix(items, g, j + 1);
        return None;
      }
      pushed := pushed + [TodoItem(
        OptMember(todo, "id"), OptMember(todo, "content"), OptMember(todo, "status"),
        OptMember(todo, "priority"), sessionId,
        DateOrNow(OptMember(todo, "createdAt"), env),
        DateOrNow(OptMember(todo, "updatedAt"), env))];
      j := j + 1;
    }
    assert items[..j] == items;
    todos := Some(pushed);
  }

  /** Reads the todos of one session; any failure while reading them gives none at all. */
  method ReadTodos(sessionId: string, todosDir: Node, env: Env) returns (todos: seq<TodoItem>)
    ensures todos == TodosOf(sessionId, todosDir, env)
  {
    var listing := ReadDir(todosDir);
    if listing.None? {
      return [];
    }
    var collected := ReadTodoFiles(TodoFiles(listing.value, sessionId), sessionId, env);
    todos := collected.GetOr([]);
  }

  /** The loop over the session's todo files: their todos in order; None at the first file that fails. */
  method ReadTodoFiles(files: seq<DirEntry>, sessionId: string, env: Env) returns (todos: Option<seq<TodoItem>>)
    ensures todos == CollectAll(files, TodoFileReader(sessionId, env))
  {
    var f := TodoFileReader(sessionId, env);
    var acc: seq<TodoItem> := [];
    var i := 0;
    while i < |files|
      invariant 0 <= i <= |files|
      invariant CollectAll(files[..i], f) == Some(acc)
    {
      var fileTodos := ReadTodoFile(files[i], sessionId, env);
      if fileTodos.None? {
        assert files[..i + 1][..i] == files[..i];
        CollectAllFailedPrefix(files, f, i + 1);
        return None;
      }
      CollectAllSnoc(files, f, i, acc, fileTodos.value);
      acc := acc + fileTodos.value;
      i := i + 1;
    }
    assert files[..i] == files;
    todos := Some(acc);
  }

  // --------------------------------------------------------------- sessions

  /** The line loop of the session reader: it keeps every record and the running minimum and maximum time. */
  method ReadLines(lines: seq<string>, sessionId: string, env: Env)
    returns (conversations: seq<Conversation>, startTime: int, lastUpdate: int)
    ensures conversations == ConversationsOf(lines, sessionId, env)
    ensures startTime == Earliest(conversations, env.now)
    ensures lastUpdate == Latest(conversations, env.now)
  {
    conversations := [];
    startTime := env.now;
    lastUpdate := env.now;
    for i := 0 to |lines|
      invariant conversations == ConversationsOf(lines[..i], sessionId, env)
      invariant startTime == Earliest(conversations, env.now)
      invariant lastUpdate == Latest(conversations, env.now)
    {
      ConversationsOfSnoc(lines, i, sessionId, env);
      var conversation := ParseLine(lines[i], sessionId, i, env);
      if conversation.Some? {
        RunningBoundsSnoc(conversations, conversation.value, env.now);
        conversations := conversations + [conversation.value];
        if conversation.value.timestamp < startTime {
          startTime := conversation.value.timestamp;
        }
        if conversation.value.timestamp > lastUpdate {
          lastUpdate := conversation.value.timestamp;
        }
      }
    }
    assert lines[..|lines|] == lines;
  }

  /** Reads one session file and the session's todos; the empty session when the file cannot be read. */
  method ReadSession(sessionId: string, file: Node, todosDir: Node, env: Env) returns (session: ClaudeSession)
    ensures session == SessionOf(sessionId, file, todosDir, env)
  {
    var content := ReadFile(file);
    if content.None? {
      return EmptySession(sessionId, env.now);
    }
    session := ReadSessionContent(sessionId, SessionLines(content.value), todosDir, env);
  }

  /** The body of the session reader once the file's text is in hand: the line loop, then the todos. */
  method ReadSessionContent(sessionId: string, lines: seq<string>, todosDir: Node, env: Env) returns (session: ClaudeSession)
    ensures session == SessionFrom(sessionId, ConversationsOf(lines, sessionId, env), TodosOf(sessionId, todosDir, env), env.now)
  {
    var conversations, startTime, lastUpdate := ReadLines(lines, sessionId, env);
    var todos := ReadTodos(sessionId, todosDir, env);
    var duration := lastUpdate - startTime;
    session := ClaudeSession(sessionId, ProjectIdOf(sessionId), conversations, todos,
                             startTime, lastUpdate, |conversations|, duration);
  }

  // --------------------------------------------------------------- projects

  predicate IsSessionFile(name: string) {
    EndsWith(name, ".jsonl")
  }

  /** `sessionFile.replace('.jsonl', '')`: only the first occurrence goes. */
  function SessionIdOf(fileName: string): string {
    ReplaceFirst(fileName, ".jsonl", "")
  }

  /** The session an entry of a project directory contributes: one for a `.jsonl` file, none otherwise. */
  function SessionEntry(e: DirEntry, todosDir: Node, env: Env): seq<ClaudeSession> {
    if IsSessionFile(e.name) then [SessionOf(SessionIdOf(e.name), e.node, todosDir, env)] else []
  }

  function SessionsOf(entries: seq<DirEntry>, todosDir: Node, env: Env): seq<ClaudeSession> {
    FlatMap(entries, SessionEntryReader(todosDir, env))
  }

  /** The per-entry step of the project reader, as a function value. */
  function SessionEntryReader(todosDir: Node, env: Env): DirEntry -> seq<ClaudeSession> {
    (e: DirEntry) => SessionEntry(e, todosDir, env)
  }

  function LastUpdateOf(s: ClaudeSession): int {
    s.lastUpdate
  }

  function MessageCountOf(s: ClaudeSession): int {
    s.messageCount
  }

  /** The last `/`-separated part of the directory name with every `-` turned into `/`. */
  function ProjectName(projectDir: string): string {
    var parts := Split(ReplaceAllChar(projectDir, '-', '/'), '/');
    var last := Last(parts);
    if last == "" then "Unknown Project" else last
  }

  /** The project built from a directory listing. */
  function ProjectFrom(projectDir: string, sessions: seq<ClaudeSession>, now: int): ClaudeProject {
    ClaudeProject(
      projectDir,
      ReplaceAllChar(projectDir, '-', '/'),
      ProjectName(projectDir),
      sessions,
      if |sessions| > 0 then MaxOf(sessions, LastUpdateOf) else now,
      Sum(sessions, MessageCountOf),
      |sessions|)
  }

  /** The project in `dir`; None when its listing throws. */
  function ProjectOf(projectDir: string, dir: Node, todosDir: Node, env: Env): Option<ClaudeProject> {
    match ReadDir(dir)
    case None => None
    case Some(entries) => Some(ProjectFrom(projectDir, SessionsOf(entries, todosDir, env), env.now))
  }

  /** Reads one project directory, session file by session file. */
  method ReadProject(projectDir: string, dir: Node, todosDir: Node, env: Env) returns (project: Option<ClaudeProject>)
    ensures project == ProjectOf(projectDir, dir, todosDir, env)
  {
    var sessionFiles := ReadDir(dir);
    if sessionFiles.None? {
      return None;
    }
    var sessions := ReadSessionFiles(sessionFiles.value, todosDir, env);
    project := Some(ProjectFrom(projectDir, sessions, env.now));
  }

  /** The loop over a project's entries: one session per `.jsonl` file, in listing order. */
  method ReadSessionFiles(entries: seq<DirEntry>, todosDir: Node, env: Env) returns (sessions: seq<ClaudeSession>)
    ensures sessions == SessionsOf(entries, todosDir, env)
  {
    var f := SessionEntryReader(todosDir, env);
    sessions := [];
    for i := 0 to |entries|
      invariant sessions == FlatMap(entries[..i], f)
    {
      FlatMapSnoc(entries, f, i);
      if IsSessionFile(entries[i].name) {
        var sessionId := SessionIdOf(entries[i].name);
        var session := ReadSession(sessionId, entries[i].node, todosDir, env);
        sessions := sessions + [session];
      } else {
        assert sessions + f(entries[i]) == sessions;
      }
    }
    assert entries[..|entries|] == entries;
  }

  /** What one entry of the projects directory contributes; None when its `stat` or its read throws. */
  function ProjectEntry(e: DirEntry, todosDir: Node, env: Env): Option<seq<ClaudeProject>> {
    match e.node
    case Dangling => None
    case File(_) => Some([])
    case Dir(_) =>
      match ProjectOf(e.name, e.node, todosDir, env)
      case None => None
      case Some(p) => Some([p])
  }

  /** The per-entry step of the projects walk, as a function value. */
  function ProjectEntryReader(todosDir: Node, env: Env): DirEntry -> Option<seq<ClaudeProject>> {
    (e: DirEntry) => ProjectEntry(e, todosDir, env)
  }

  /** Newest activity first; the sort is stable. */
  function ByActivity(p: ClaudeProject): int {
    p.lastActivity
  }

  /** All projects, newest activity first; any failure during the walk gives none. */
  function AllProjects(root: ClaudeDir, env: Env): seq<ClaudeProject> {
    match ReadDir(root.projects)
    case None => []
    case Some(entries) =>
      match CollectAll(entries, ProjectEntryReader(root.todos, env))
      case None => []
      case Some(projects) => SortDesc(projects, ByActivity)
  }

  /** Walks the projects directory and sorts the result; empty after any failure. */
  method ReadProjects(root: ClaudeDir, env: Env) returns (projects: seq<ClaudeProject>)
    ensures projects == AllProjects(root, env)
  {
    var projectDirs := ReadDir(root.projects);
    if projectDirs.None? {
      return [];
    }
    var collected := ReadProjectEntries(projectDirs.value, root.todos, env);
    if collected.None? {
      return [];
    }
    projects := SortDesc(collected.value, ByActivity);
  }

  /** The loop over the projects directory: one project per subdirectory, none for a file; None at the first failure. */
  method ReadProjectEntries(entries: seq<DirEntry>, todosDir: Node, env: Env) returns (projects: Option<seq<ClaudeProject>>)
    ensures projects == CollectAll(entries, ProjectEntryReader(todosDir, env))
  {
    var f := ProjectEntryReader(todosDir, env);
    var acc: seq<ClaudeProject> := [];
    var i := 0;
    while i < |entries|
      invariant 0 <= i <= |entries|
      invariant CollectAll(entries[..i], f) == Some(acc)
    {
      var entry := entries[i];
      if entry.node.Dangling? {
        assert entries[..i + 1][..i] == entries[..i];
        CollectAllFailedPrefix(entries, f, i + 1);
        return None;
      }
      if entry.node.Dir? {
        var project := ReadProject(entry.name, entry.node, todosDir, env);
        if project.None? {
          assert entries[..i + 1][..i] == entries[..i];
          CollectAllFailedPrefix(entries, f, i + 1);
          return None;
        }
        CollectAllSnoc(entries, f, i, acc, [project.value]);
        acc := acc + [project.value];
      } else {
        CollectAllSnoc(entries, f, i, acc, []);
        assert acc + [] == acc;
      }
      i := i + 1;
    }
    assert entries[..i] == entries;
    projects := Some(acc);
  }

  // ------------------------------------------------------------ statistics

  function SessionsOfProject(p: ClaudeProject): seq<ClaudeSession> {
    p.sessions
  }

  function TodosOfSession(s: ClaudeSession): seq<TodoItem> {
    s.todos
  }

  function RecordsOf(s: ClaudeSession): seq<Conversation> {
    s.conversations
  }

  function TotalMessagesOf(p: ClaudeProject): int {
    p.totalMessages
  }

  /** Active: updated within the last day before `now`. */
  function IsActiveSession(now: int): ClaudeSession -> bool {
    (s: ClaudeSession) => s.lastUpdate > now - DAY_MS
  }

  /** Active: some activity within the last day before `now`. */
  function IsActiveProject(now: int): ClaudeProject -> bool {
    (p: ClaudeProject) => p.lastActivity > now - DAY_MS
  }

  function AllSessions(projects: seq<ClaudeProject>): seq<ClaudeSession> {
    FlatMap(projects, SessionsOfProject)
  }

  function AllTodos(projects: seq<ClaudeProject>): seq<TodoItem> {
    FlatMap(AllSessions(projects), TodosOfSession)
  }

  predicate IsCompleted(t: TodoItem) {
    t.status == Str("completed")
  }

  /** The aggregate figures over all projects; `now` is the clock at the time of the call. */
  function StatsOf(projects: seq<ClaudeProject>, now: int): (stats: ProjectStats)
    ensures stats.totalProjects == |projects| && stats.activeProjects <= stats.totalProjects
    ensures stats.totalSessions == |AllSessions(projects)| && stats.activeSessions <= stats.totalSessions
    ensures stats.totalTodos == |AllTodos(projects)| && stats.completedTodos <= stats.totalTodos
    ensures stats.activeProjects == |set i | 0 <= i < |projects| && projects[i].lastActivity > now - DAY_MS|
    ensures stats.activeSessions ==
      |set i | 0 <= i < |AllSessions(projects)| && AllSessions(projects)[i].lastUpdate > now - DAY_MS|
    ensures stats.completedTodos == |set i | 0 <= i < |AllTodos(projects)| && AllTodos(projects)[i].status == Str("completed")|
    ensures stats.totalMessages == Sum(projects, TotalMessagesOf)
    ensures stats.totalSessions == 0 ==> stats.averageSessionDuration == 0.0
    ensures stats.totalSessions > 0 ==>
      stats.averageSessionDuration * stats.totalSessions as real == Sum(AllSessions(projects), DurationOf) as real
  {
    var sessions := AllSessions(projects);
    var todos := AllTodos(projects);
    ActiveProjectsCounted(projects, now);
    ActiveSessionsCounted(sessions, now);
    CompletedTodosCounted(todos);
    ProjectStats(
      totalProjects := |projects|,
      activeProjects := Count(projects, IsActiveProject(now)),
      totalSessions := |sessions|,
      activeSessions := Count(sessions, IsActiveSession(now)),
      totalMessages := Sum(projects, TotalMessagesOf),
      totalTodos := |todos|,
      completedTodos := Count(todos, IsCompleted),
      averageSessionDuration := MeanDuration(sessions))
  }

  /** The active projects are the positions whose last activity is strictly within the day. */
  lemma ActiveProjectsCounted(projects: seq<ClaudeProject>, now: int)
    ensures Count(projects, IsActiveProject(now)) == |set i | 0 <= i < |projects| && projects[i].lastActivity > now - DAY_MS|
  {
    CountIndices(projects, IsActiveProject(now));
    assert IndicesWhere(projects, IsActiveProject(now)) == set i | 0 <= i < |projects| && projects[i].lastActivity > now - DAY_MS;
  }

  /** The active sessions are the positions whose last update is strictly within the day. */
  lemma ActiveSessionsCounted(sessions: seq<ClaudeSession>, now: int)
    ensures Count(sessions, IsActiveSession(now)) == |set i | 0 <= i < |sessions| && sessions[i].lastUpdate > now - DAY_MS|
  {
    CountIndices(sessions, IsActiveSession(now));
    assert IndicesWhere(sessions, IsActiveSession(now)) == set i | 0 <= i < |sessions| && sessions[i].lastUpdate > now - DAY_MS;
  }

  /** The completed todos are the positions whose status is "completed". */
  lemma CompletedTodosCounted(todos: seq<TodoItem>)
    ensures Count(todos, IsCompleted) == |set i | 0 <= i < |todos| && todos[i].status == Str("completed")|
  {
    CountIndices(todos, IsCompleted);
    assert IndicesWhere(todos, IsCompleted) == set i | 0 <= i < |todos| && todos[i].status == Str("completed");
  }

  function DurationOf(s: ClaudeSession): int {
    s.duration
  }

  /** The mean session duration: the total over the count, and 0 for no sessions; never negative when the total is not. */
  function MeanDuration(sessions: seq<ClaudeSession>): (m: real)
    ensures |sessions| == 0 ==> m == 0.0
    ensures |sessions| > 0 ==> m * |sessions| as real == Sum(sessions, DurationOf) as real
    ensures Sum(sessions, DurationOf) >= 0 ==> m >= 0.0
  {
    if |sessions| > 0 then Sum(sessions, DurationOf) as real / |sessions| as real else 0.0
  }

  /** Reads every project (at clock `env.now`) and aggregates them (at clock `statsNow`). */
  method GetProjectStats(root: ClaudeDir, env: Env, statsNow: int) returns (stats: ProjectStats)
    ensures stats == StatsOf(AllProjects(root, env), statsNow)
  {
    var projects := ReadProjects(root, env);
    stats := StatsOf(projects, statsNow);
  }

  // ----------------------------------------------------- statsig selection

  /** The files the statsig reader picks: the session-id file, the stable-id file and the evaluation caches. */
  datatype StatsigFiles = StatsigFiles(sessionFile: string, stableFile: string, evaluationFiles: seq<string>)

  predicate IsSessionIdFile(f: string) {
    StartsWith(f, "statsig.session_id.")
  }

  predicate IsStableIdFile(f: string) {
    StartsWith(f, "statsig.stable_id.")
  }

  predicate IsEvaluationFile(f: string) {
    StartsWith(f, "statsig.cached.evaluations.")
  }

  /** None when either id file is missing; a missing file name and an empty one are both rejected. */
  function SelectStatsigFiles(files: seq<string>): Option<StatsigFiles> {
    var sessionFile := Find(files, IsSessionIdFile);
    var stableFile := Find(files, IsStableIdFile);
    var evaluations := Filter(files, IsEvaluationFile);
    if sessionFile.None? || stableFile.None? then None
    else Some(StatsigFiles(sessionFile.value, stableFile.value, evaluations))
  }

  /** The names of a directory listing, in listing order. */
  function EntryNames(entries: seq<DirEntry>): (names: seq<string>)
    ensures |names| == |entries|
    ensures forall i :: 0 <= i < |entries| ==> names[i] == entries[i].name
  {
    seq(|entries|, i requires 0 <= i < |entries| => entries[i].name)
  }

  /** The statsig reader's choice of files; None when listing the statsig directory throws. */
  function StatsigFilesOf(root: ClaudeDir): Option<StatsigFiles> {
    match ReadDir(root.statsig)
    case None => None
    case Some(entries) => SelectStatsigFiles(EntryNames(entries))
  }
}
