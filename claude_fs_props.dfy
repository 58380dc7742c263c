/**
 * What the log reader guarantees about the records it builds: the order of
 * the message-body fallbacks, which lines become records, how the clock
 * enters a session's times, where todos come from, how projects are rolled
 * up and ordered, and what the statistics count.
 */
module ClaudeFsProperties {

  import opened Optional
  import opened Seqs
  import opened Text
  import opened JsValues
  import opened ClaudeTypes
  import opened ClaudeFs

  // ------------------------------------------------------------ records

  /** The message body follows a fixed order of fallbacks. */
  lemma MessageBodyPrecedence(data: JsValue, env: Env)
    requires !IsNullish(data)
    ensures var msg := OptMember(data, "message");
      && (msg.Str? ==> MessageBody(data, env) == msg)
      && (IsObject(msg) && Truthy(OptMember(msg, "content")) ==>
            MessageBody(data, env) == OptMember(msg, "content"))
      && (IsObject(msg) && !Truthy(OptMember(msg, "content")) && Truthy(OptMember(msg, "text")) ==>
            MessageBody(data, env) == OptMember(msg, "text"))
      && (IsObject(msg) && !Truthy(OptMember(msg, "content")) && !Truthy(OptMember(msg, "text")) ==>
            MessageBody(data, env) == Str(env.stringify(msg)))
      && (!msg.Str? && !IsObject(msg) && Truthy(OptMember(data, "content")) ==>
            MessageBody(data, env) == OptMember(data, "content"))
      && (!msg.Str? && !IsObject(msg) && !Truthy(OptMember(data, "content")) && Truthy(OptMember(data, "text")) ==>
            MessageBody(data, env) == OptMember(data, "text"))
      && (!msg.Str? && !IsObject(msg) && !Truthy(OptMember(data, "content")) && !Truthy(OptMember(data, "text")) ==>
            MessageBody(data, env) == Str("No content available"))
    ensures Truthy(MessageBody(data, env)) || MessageBody(data, env).Str?
  {
  }

  /** The defaults a record gets for the fields it lacks. */
  lemma NormalizeDefaults(data: JsValue, sessionId: string, index: nat, env: Env)
    requires !IsNullish(data)
    ensures var c := Normalize(data, sessionId, index, env).value;
      && (Truthy(OptMember(data, "id")) ==> c.id == OptMember(data, "id"))
      && (!Truthy(OptMember(data, "id")) ==> c.id == Str(env.randomId(sessionId, index)))
      && c.kind == Or(OptMember(data, "type"), Str("user"))
      && c.message.role == Or(OptMember(OptMember(data, "message"), "role"), c.kind)
      && c.message.content == MessageBody(data, env)
      && c.tools == OptMember(data, "tools")
      && c.parentUuid == OptMember(data, "parentUuid")
      && c.sessionId == sessionId
      && (!Truthy(OptMember(data, "timestamp")) ==> c.timestamp == env.now)
  {
  }

  /**
   * A session's records are exactly the lines that parse into a non-null
   * value, in file order: `idx` lists those lines' positions, increasing,
   * and record `k` is what line `idx[k]` parses to.
   */
  lemma ConversationsAreParsedLines(lines: seq<string>, sessionId: string, env: Env)
    returns (idx: seq<nat>)
    ensures |idx| == |ConversationsOf(lines, sessionId, env)|
    ensures forall k :: 0 <= k < |idx| ==>
      idx[k] < |lines| && ParseLine(lines[idx[k]], sessionId, idx[k], env) == Some(ConversationsOf(lines, sessionId, env)[k])
    ensures forall k, m :: 0 <= k < m < |idx| ==> idx[k] < idx[m]
    ensures forall i :: 0 <= i < |lines| && ParseLine(lines[i], sessionId, i, env).Some? ==> i in idx
  {
    var f := LineParser(sessionId, env);
    ConversationsOfKeepsParsed(lines, sessionId, env);
    idx := KeepSomeIndices(lines, f);
  }

  /** The line parser as a function value of the line and its index. */
  function LineParser(sessionId: string, env: Env): (string, nat) -> Option<Conversation> {
    (line: string, i: nat) => ParseLine(line, sessionId, i, env)
  }

  /** The session's records are what the line parser keeps. */
  lemma {:induction false} ConversationsOfKeepsParsed(lines: seq<string>, sessionId: string, env: Env)
    ensures ConversationsOf(lines, sessionId, env) == KeepSome(lines, LineParser(sessionId, env))
    decreases |lines|
  {
    if lines != [] {
      ConversationsOfKeepsParsed(lines[..|lines| - 1], sessionId, env);
    }
  }

  /**
   * The lines kept from a file are exactly its non-blank lines: in order,
   * each kept line is non-blank, and every non-blank line is kept with all
   * its copies.
   */
  lemma SessionLinesNonBlank(content: string)
    ensures NonBlankOf(SessionLines(content), Split(Trim(content), '\n'))
  {
    NonBlankKept(Split(Trim(content), '\n'));
  }

  /** `lines` keeps, in order, exactly the non-blank lines of `parts`, with all their copies. */
  ghost predicate NonBlankOf(lines: seq<string>, parts: seq<string>) {
    && IsSubseq(lines, parts)
    && (forall i :: 0 <= i < |lines| ==> !AllWhitespace(lines[i]))
    && (forall l :: multiset(lines)[l] == if AllWhitespace(l) then 0 else multiset(parts)[l])
  }

  /** The line filter keeps exactly the non-blank parts. */
  lemma NonBlankKept(parts: seq<string>)
    ensures NonBlankOf(Filter(parts, NonBlankLine), parts)
  {
    var lines := Filter(parts, NonBlankLine);
    FilterIsSubseq(parts, NonBlankLine);
    FilterSatisfies(parts, NonBlankLine);
    forall i | 0 <= i < |lines| ensures !AllWhitespace(lines[i]) {
      TrimEmpty(lines[i]);
    }
    forall l ensures multiset(lines)[l] == if AllWhitespace(l) then 0 else multiset(parts)[l] {
      FilterMultiset(parts, NonBlankLine, l);
      TrimEmpty(l);
    }
  }

  // ----------------------------------------------------------- sessions

  /** Everything a session built by the reader satisfies, given the clock reading `now` it was built at. */
  predicate WellFormedSession(s: ClaudeSession, now: int) {
    && s.projectId == ProjectIdOf(s.id)
    && s.messageCount == |s.conversations|
    && s.startTime <= now <= s.lastUpdate
    && s.duration == s.lastUpdate - s.startTime
    && (forall i :: 0 <= i < |s.conversations| ==>
          s.conversations[i].sessionId == s.id
          && s.startTime <= s.conversations[i].timestamp <= s.lastUpdate)
    && (forall i :: 0 <= i < |s.todos| ==> s.todos[i].sessionId == s.id)
  }

  /**
   * The clock seeds both ends of a session: the start is the earliest of
   * `now` and the records' times, the last update the latest of them.
   */
  lemma SessionTimes(sessionId: string, file: Node, todosDir: Node, env: Env)
    ensures var s := SessionOf(sessionId, file, todosDir, env);
      && s.duration == s.lastUpdate - s.startTime >= 0
      && (s.startTime == env.now || exists i :: 0 <= i < |s.conversations| && s.startTime == s.conversations[i].timestamp)
      && (s.lastUpdate == env.now || exists i :: 0 <= i < |s.conversations| && s.lastUpdate == s.conversations[i].timestamp)
      && (s.conversations == [] ==> s.startTime == s.lastUpdate == env.now && s.duration == 0)
  {
  }

  /** A session file that cannot be read gives an empty session. */
  lemma SessionReadFailure(sessionId: string, file: Node, todosDir: Node, env: Env)
    requires ReadFile(file).None?
    ensures SessionOf(sessionId, file, todosDir, env)
      == ClaudeSession(sessionId, ProjectIdOf(sessionId), [], [], env.now, env.now, 0, 0)
  {
  }

  lemma SessionOfWellFormed(sessionId: string, file: Node, todosDir: Node, env: Env)
    ensures WellFormedSession(SessionOf(sessionId, file, todosDir, env), env.now)
  {
    var s := SessionOf(sessionId, file, todosDir, env);
    if ReadFile(file).Some? {
      TodosTagged(sessionId, todosDir, env);
    }
  }

  /**
   * Two records ten minutes apart, both older than the clock: the duration
   * runs from the earlier record up to `now`, not to the later record.
   */
  lemma DurationRunsToNow(l1: string, l2: string, t: int, sessionId: string, env: Env)
    requires env.parse(l1) == Some(Obj(map["timestamp" := Num(t)]))
    requires env.parse(l2) == Some(Obj(map["timestamp" := Num(t + 600000)]))
    requires 0 < t && t + 600000 < env.now
    ensures var cs := ConversationsOf([l1, l2], sessionId, env);
      && |cs| == 2
      && Latest(cs, env.now) - Earliest(cs, env.now) == env.now - t
      && Latest(cs, env.now) - Earliest(cs, env.now) != 600000
  {
    TimestampOnly(t, sessionId, 0, env);
    TimestampOnly(t + 600000, sessionId, 1, env);
    var c1 := ParseLine(l1, sessionId, 0, env).value;
    var c2 := ParseLine(l2, sessionId, 1, env).value;
    TwoLines(l1, l2, sessionId, env);
    BoundsOfTwo(c1, c2, env.now);
  }

  /** Two records in time order, both before the seed: the minimum is the first, the maximum the seed. */
  lemma BoundsOfTwo(c1: Conversation, c2: Conversation, seed: int)
    requires c1.timestamp < c2.timestamp < seed
    ensures Earliest([c1] + [c2], seed) == c1.timestamp && Latest([c1] + [c2], seed) == seed
  {
    RunningBoundsSnoc([], c1, seed);
    RunningBoundsSnoc([c1], c2, seed);
    assert [] + [c1] == [c1];
  }

  /** A record that holds only a non-zero numeric timestamp gets exactly that time. */
  lemma TimestampOnly(x: int, sessionId: string, index: nat, env: Env)
    requires x != 0
    ensures Normalize(Obj(map["timestamp" := Num(x)]), sessionId, index, env).Some?
    ensures Normalize(Obj(map["timestamp" := Num(x)]), sessionId, index, env).value.timestamp == x
  {
    var data := Obj(map["timestamp" := Num(x)]);
    assert OptMember(data, "timestamp") == Num(x);
  }

  /** Two lines that both yield a record give those two records, in order. */
  lemma TwoLines(l1: string, l2: string, sessionId: string, env: Env)
    requires ParseLine(l1, sessionId, 0, env).Some? && ParseLine(l2, sessionId, 1, env).Some?
    ensures ConversationsOf([l1, l2], sessionId, env)
      == [ParseLine(l1, sessionId, 0, env).value] + [ParseLine(l2, sessionId, 1, env).value]
  {
    assert [l1][..0] == [];
    assert [l1, l2][..1] == [l1];
  }

  // -------------------------------------------------------------- todos

  /** A todo file fails exactly when it cannot be read or parsed, or when its array holds a `null`/`undefined`. */
  lemma TodoFileFails(todoFile: DirEntry, sessionId: string, env: Env)
    ensures TodoFileOf(todoFile, sessionId, env).None? <==>
      || ReadFile(todoFile.node).None?
      || env.parse(ReadFile(todoFile.node).value).None?
      || (var data := env.parse(ReadFile(todoFile.node).value).value;
          data.Arr? && exists i :: 0 <= i < |data.items| && IsNullish(data.items[i]))
    ensures (ReadFile(todoFile.node).Some? && env.parse(ReadFile(todoFile.node).value).Some?
             && !env.parse(ReadFile(todoFile.node).value).value.Arr?)
            ==> TodoFileOf(todoFile, sessionId, env) == Some([])
  {
    if ReadFile(todoFile.node).Some? && env.parse(ReadFile(todoFile.node).value).Some? {
      var data := env.parse(ReadFile(todoFile.node).value).value;
      if data.Arr? {
        CollectAllFails(data.items, (v: JsValue) => TodoOf(v, sessionId, env));
      }
    }
  }

  /** Every todo of a file carries the session id. */
  lemma TodoFileTagged(todoFile: DirEntry, sessionId: string, env: Env)
    ensures forall t :: t in TodoFileOf(todoFile, sessionId, env).GetOr([]) ==> t.sessionId == sessionId
  {
    var r := TodoFileOf(todoFile, sessionId, env);
    if r.Some? && ReadFile(todoFile.node).Some? && env.parse(ReadFile(todoFile.node).value).Some? {
      var data := env.parse(ReadFile(todoFile.node).value).value;
      if data.Arr? {
        var g := (v: JsValue) => TodoOf(v, sessionId, env);
        var h := (v: JsValue) => g(v).GetOr([]);
        CollectAllFlat(data.items, g, h);
        forall t | t in r.value ensures t.sessionId == sessionId {
          FlatMapMember(data.items, h, t);
          var v :| v in data.items && t in h(v);
        }
      }
    }
  }

  /** Every todo of a session carries the session id. */
  lemma TodosTagged(sessionId: string, todosDir: Node, env: Env)
    ensures forall i :: 0 <= i < |TodosOf(sessionId, todosDir, env)| ==> TodosOf(sessionId, todosDir, env)[i].sessionId == sessionId
  {
    var todos := TodosOf(sessionId, todosDir, env);
    if ReadDir(todosDir).Some? {
      var files := TodoFiles(ReadDir(todosDir).value, sessionId);
      var f := TodoFileReader(sessionId, env);
      var h := (x: DirEntry) => f(x).GetOr([]);
      CollectAllFlat(files, f, h);
      if CollectAll(files, f).Some? {
        forall i | 0 <= i < |todos| ensures todos[i].sessionId == sessionId {
          FlatMapMember(files, h, todos[i]);
          var x :| x in files && todos[i] in h(x);
          TodoFileTagged(x, sessionId, env);
        }
      }
    }
  }

  /**
   * Todos come only from the files named after the session, in listing
   * order, and one failing file among them leaves the session with none.
   */
  lemma TodosFromSessionFiles(sessionId: string, todosDir: Node, env: Env)
    ensures ReadDir(todosDir).None? ==> TodosOf(sessionId, todosDir, env) == []
    ensures ReadDir(todosDir).Some? ==>
      var files := TodoFiles(ReadDir(todosDir).value, sessionId);
      && (forall i :: 0 <= i < |files| ==> IsTodoFileOf(files[i].name, sessionId))
      && (forall i :: 0 <= i < |ReadDir(todosDir).value| && IsTodoFileOf(ReadDir(todosDir).value[i].name, sessionId)
            ==> ReadDir(todosDir).value[i] in files)
      && ((exists i :: 0 <= i < |files| && TodoFileOf(files[i], sessionId, env).None?) ==>
            TodosOf(sessionId, todosDir, env) == [])
      && ((forall i :: 0 <= i < |files| ==> TodoFileOf(files[i], sessionId, env).Some?) ==>
            TodosOf(sessionId, todosDir, env) == FlatMap(files, (x: DirEntry) => TodoFileOf(x, sessionId, env).GetOr([])))
  {
    if ReadDir(todosDir).Some? {
      var files := TodoFiles(ReadDir(todosDir).value, sessionId);
      var f := TodoFileReader(sessionId, env);
      FilterMembers(ReadDir(todosDir).value, TodoFileFilter(sessionId));
      CollectAllFails(files, f);
      CollectAllFlat(files, f, (x: DirEntry) => TodoFileOf(x, sessionId, env).GetOr([]));
    }
  }

  // ----------------------------------------------------------- projects

  /** The project name: the last part of the name after a `-` or `/`, or a placeholder when that part is empty. */
  lemma ProjectNameSpec(projectDir: string)
    ensures var r := AfterLast(ReplaceAllChar(projectDir, '-', '/'), '/');
      && ProjectName(projectDir) == (if r == "" then "Unknown Project" else r)
      && r == projectDir[|projectDir| - |r|..]
      && '-' !in r && '/' !in r
      && (|r| < |projectDir| ==> projectDir[|projectDir| - |r| - 1] in "-/")
  {
    var path := ReplaceAllChar(projectDir, '-', '/');
    var r := AfterLast(path, '/');
    LastPartIsAfterLast(path, '/');
    ReplacedSuffix(projectDir, '-', '/', |path| - |r|);
  }

  /** What a readable project directory rolls up into. */
  lemma ProjectOfSpec(projectDir: string, dir: Node, todosDir: Node, env: Env)
    ensures ProjectOf(projectDir, dir, todosDir, env).None? <==> ReadDir(dir).None?
    ensures ReadDir(dir).Some? ==>
      var p := ProjectOf(projectDir, dir, todosDir, env).value;
      var entries := ReadDir(dir).value;
      && p.id == projectDir
      && p.sessions == Map(Filter(entries, (e: DirEntry) => IsSessionFile(e.name)),
                           (e: DirEntry) => SessionOf(SessionIdOf(e.name), e.node, todosDir, env))
      && p.totalSessions == |p.sessions|
      && p.totalMessages == Sum(p.sessions, MessageCountOf)
      && (p.sessions == [] ==> p.lastActivity == env.now)
      && (forall i :: 0 <= i < |p.sessions| ==> p.sessions[i].lastUpdate <= p.lastActivity)
      && (p.sessions != [] ==> exists i :: 0 <= i < |p.sessions| && p.sessions[i].lastUpdate == p.lastActivity)
      && |p.path| == |projectDir|
      && (forall i :: 0 <= i < |projectDir| ==> p.path[i] == if projectDir[i] == '-' then '/' else projectDir[i])
      && p.name == ProjectName(projectDir)
  {
    if ReadDir(dir).Some? {
      var entries := ReadDir(dir).value;
      FlatMapOptional(entries, SessionEntryReader(todosDir, env),
                      (e: DirEntry) => IsSessionFile(e.name),
                      (e: DirEntry) => SessionOf(SessionIdOf(e.name), e.node, todosDir, env));
    }
  }

  /** Everything a project built by the reader satisfies. */
  predicate WellFormedProject(p: ClaudeProject, now: int) {
    && p.totalSessions == |p.sessions|
    && p.totalMessages == Sum(p.sessions, MessageCountOf)
    && now <= p.lastActivity
    && (forall i :: 0 <= i < |p.sessions| ==> WellFormedSession(p.sessions[i], now) && p.sessions[i].lastUpdate <= p.lastActivity)
  }

  lemma ProjectOfWellFormed(projectDir: string, dir: Node, todosDir: Node, env: Env)
    requires ReadDir(dir).Some?
    ensures WellFormedProject(ProjectOf(projectDir, dir, todosDir, env).value, env.now)
  {
    ProjectOfSpec(projectDir, dir, todosDir, env);
    var p := ProjectOf(projectDir, dir, todosDir, env).value;
    var entries := ReadDir(dir).value;
    var files := Filter(entries, (e: DirEntry) => IsSessionFile(e.name));
    forall i | 0 <= i < |p.sessions| ensures WellFormedSession(p.sessions[i], env.now) {
      SessionOfWellFormed(SessionIdOf(files[i].name), files[i].node, todosDir, env);
    }
    if p.sessions != [] {
      SessionOfWellFormed(SessionIdOf(files[0].name), files[0].node, todosDir, env);
      assert env.now <= p.sessions[0].lastUpdate;
    }
  }

  /** The walk's projects, before sorting; None when any entry fails. */
  function Collected(root: ClaudeDir, entries: seq<DirEntry>, env: Env): Option<seq<ClaudeProject>> {
    CollectAll(entries, ProjectEntryReader(root.todos, env))
  }

  /** The walk keeps one project per directory entry and fails on an entry it cannot `stat` or list. */
  lemma ProjectEntryCases(e: DirEntry, todosDir: Node, env: Env)
    ensures ProjectEntry(e, todosDir, env).None? <==> e.node.Dangling? || (e.node.Dir? && e.node.listing.None?)
    ensures e.node.File? ==> ProjectEntry(e, todosDir, env) == Some([])
    ensures e.node.Dir? && e.node.listing.Some? ==>
      ProjectEntry(e, todosDir, env) == Some([ProjectOf(e.name, e.node, todosDir, env).value])
  {
  }

  /**
   * The projects list: empty when the walk fails anywhere; otherwise the
   * projects of the directory entries, newest activity first.
   */
  lemma AllProjectsSpec(root: ClaudeDir, env: Env)
    ensures SortedDesc(AllProjects(root, env), ByActivity)
    ensures ReadDir(root.projects).None? ==> AllProjects(root, env) == []
    ensures ReadDir(root.projects).Some? ==>
      var entries := ReadDir(root.projects).value;
      && ((exists i :: 0 <= i < |entries| && ProjectEntry(entries[i], root.todos, env).None?) ==> AllProjects(root, env) == [])
      && (Collected(root, entries, env).Some? ==>
            multiset(AllProjects(root, env)) == multiset(Collected(root, entries, env).value))
    ensures forall k :: 0 <= k < |AllProjects(root, env)| ==> FromDirEntry(root, env, AllProjects(root, env)[k])
  {
    var projects := AllProjects(root, env);
    AllProjectsOutcome(root, env);
    forall k | 0 <= k < |projects| ensures FromDirEntry(root, env, projects[k]) {
      ProjectFromEntry(root, env, k);
    }
  }

  /** `p` is the project of a subdirectory of the projects directory that has `p`'s id as its name. */
  predicate FromDirEntry(root: ClaudeDir, env: Env, p: ClaudeProject) {
    exists e :: e in ReadDir(root.projects).GetOr([]) && e.node.Dir? && e.name == p.id
      && ProjectOf(e.name, e.node, root.todos, env) == Some(p)
  }

  /** The walk's outcome: sorted, empty when it fails, a permutation of the collected projects otherwise. */
  lemma AllProjectsOutcome(root: ClaudeDir, env: Env)
    ensures SortedDesc(AllProjects(root, env), ByActivity)
    ensures ReadDir(root.projects).None? ==> AllProjects(root, env) == []
    ensures ReadDir(root.projects).Some? ==>
      var entries := ReadDir(root.projects).value;
      && ((exists i :: 0 <= i < |entries| && ProjectEntry(entries[i], root.todos, env).None?) ==> AllProjects(root, env) == [])
      && (Collected(root, entries, env).Some? ==>
            multiset(AllProjects(root, env)) == multiset(Collected(root, entries, env).value))
  {
    if ReadDir(root.projects).Some? {
      var entries := ReadDir(root.projects).value;
      var f := ProjectEntryReader(root.todos, env);
      CollectAllFails(entries, f);
      if CollectAll(entries, f).Some? {
        SortDescSorted(CollectAll(entries, f).value, ByActivity);
      }
    }
  }

  /** Each listed project is the project of a directory entry of its own name. */
  lemma ProjectFromEntry(root: ClaudeDir, env: Env, k: nat)
    requires k < |AllProjects(root, env)|
    ensures FromDirEntry(root, env, AllProjects(root, env)[k])
  {
    var entries := ReadDir(root.projects).value;
    var f := ProjectEntryReader(root.todos, env);
    var h := (x: DirEntry) => f(x).GetOr([]);
    var collected := CollectAll(entries, f).value;
    var p := AllProjects(root, env)[k];
    assert p in multiset(SortDesc(collected, ByActivity));
    CollectAllFlat(entries, f, h);
    FlatMapMember(entries, h, p);
    var e :| e in entries && p in h(e);
    ProjectEntryCases(e, root.todos, env);
  }

  /** Projects with the same last activity stay in listing order. */
  lemma AllProjectsStable(root: ClaudeDir, env: Env, sameTime: ClaudeProject -> bool, t: int)
    requires forall p :: sameTime(p) == (p.lastActivity == t)
    requires ReadDir(root.projects).Some? && Collected(root, ReadDir(root.projects).value, env).Some?
    ensures Filter(AllProjects(root, env), sameTime) == Filter(Collected(root, ReadDir(root.projects).value, env).value, sameTime)
  {
    SortDescStable(Collected(root, ReadDir(root.projects).value, env).value, ByActivity, sameTime, t);
  }

  lemma AllProjectsWellFormed(root: ClaudeDir, env: Env)
    ensures forall k :: 0 <= k < |AllProjects(root, env)| ==> WellFormedProject(AllProjects(root, env)[k], env.now)
  {
    AllProjectsSpec(root, env);
    var projects := AllProjects(root, env);
    forall k | 0 <= k < |projects| ensures WellFormedProject(projects[k], env.now) {
      var e :| e in ReadDir(root.projects).GetOr([]) && e.node.Dir? && e.name == projects[k].id
        && ProjectOf(e.name, e.node, root.todos, env) == Some(projects[k]);
      ProjectOfWellFormed(e.name, e.node, root.todos, env);
    }
  }

  // ---------------------------------------------------------- statistics

  lemma {:induction false} SessionsOfWellFormed(projects: seq<ClaudeProject>, now: int)
    requires forall k :: 0 <= k < |projects| ==> WellFormedProject(projects[k], now)
    ensures forall i :: 0 <= i < |AllSessions(projects)| ==> WellFormedSession(AllSessions(projects)[i], now)
  {
    forall i | 0 <= i < |AllSessions(projects)| ensures WellFormedSession(AllSessions(projects)[i], now) {
      var s := AllSessions(projects)[i];
      FlatMapMember(projects, SessionsOfProject, s);
      var p :| p in projects && s in p.sessions;
      var j :| 0 <= j < |p.sessions| && p.sessions[j] == s;
    }
  }

  /**
   * Because every read seeds its times with the clock, every project and
   * session is counted as active by statistics taken less than a day after
   * the read.
   */
  lemma AllActiveWithinADay(root: ClaudeDir, env: Env, statsNow: int)
    requires env.now <= statsNow < env.now + DAY_MS
    ensures var stats := StatsOf(AllProjects(root, env), statsNow);
      stats.activeProjects == stats.totalProjects && stats.activeSessions == stats.totalSessions
  {
    var projects := AllProjects(root, env);
    AllProjectsWellFormed(root, env);
    SessionsOfWellFormed(projects, env.now);
    ProjectsActive(projects, env.now, statsNow);
    SessionsActive(AllSessions(projects), env.now, statsNow);
  }

  /**
   * The one-day window is strict: each project adds one to the active count
   * exactly when its last activity is later than one day before the clock,
   * so one exactly a day old adds nothing.
   */
  lemma ActiveWindowIsStrict(projects: seq<ClaudeProject>, now: int, k: nat)
    requires k < |projects|
    ensures StatsOf(projects, now).activeProjects ==
      StatsOf(projects[..k] + projects[k + 1..], now).activeProjects + (if projects[k].lastActivity > now - DAY_MS then 1 else 0)
    ensures projects[k].lastActivity == now - DAY_MS ==>
      StatsOf(projects, now).activeProjects == StatsOf(projects[..k] + projects[k + 1..], now).activeProjects
  {
    CountWithout(projects, k, IsActiveProject(now));
  }

  /** The same holds of sessions: each adds one exactly when its last update is later than one day before the clock. */
  lemma ActiveSessionWindowIsStrict(projects: seq<ClaudeProject>, now: int, j: nat)
    requires j < |AllSessions(projects)|
    ensures var sessions := AllSessions(projects);
      StatsOf(projects, now).activeSessions ==
        Count(sessions[..j] + sessions[j + 1..], IsActiveSession(now)) + (if sessions[j].lastUpdate > now - DAY_MS then 1 else 0)
  {
    CountWithout(AllSessions(projects), j, IsActiveSession(now));
  }

  /** Projects whose last activity is at least `now` are all active less than a day later. */
  lemma ProjectsActive(projects: seq<ClaudeProject>, now: int, statsNow: int)
    requires forall k :: 0 <= k < |projects| ==> WellFormedProject(projects[k], now)
    requires now <= statsNow < now + DAY_MS
    ensures Count(projects, IsActiveProject(statsNow)) == |projects|
  {
    forall p | p in projects ensures IsActiveProject(statsNow)(p) {
      var k :| 0 <= k < |projects| && projects[k] == p;
      assert WellFormedProject(projects[k], now);
    }
    FilterAll(projects, IsActiveProject(statsNow));
  }

  /** Sessions whose last update is at least `now` are all active less than a day later. */
  lemma SessionsActive(sessions: seq<ClaudeSession>, now: int, statsNow: int)
    requires forall i :: 0 <= i < |sessions| ==> WellFormedSession(sessions[i], now)
    requires now <= statsNow < now + DAY_MS
    ensures Count(sessions, IsActiveSession(statsNow)) == |sessions|
  {
    forall s | s in sessions ensures IsActiveSession(statsNow)(s) {
      var k :| 0 <= k < |sessions| && sessions[k] == s;
      assert WellFormedSession(sessions[k], now);
    }
    FilterAll(sessions, IsActiveSession(statsNow));
  }


  lemma {:induction false} SessionsMessageSum(sessions: seq<ClaudeSession>, now: int)
    requires forall i :: 0 <= i < |sessions| ==> WellFormedSession(sessions[i], now)
    ensures Sum(sessions, MessageCountOf) == |FlatMap(sessions, RecordsOf)|
  {
    if sessions != [] {
      assert WellFormedSession(sessions[0], now);
      SessionsMessageSum(sessions[1..], now);
    }
  }

  /** The message total equals the number of records of all sessions. */
  lemma {:induction false} TotalMessagesCountsRecords(projects: seq<ClaudeProject>, now: int)
    requires forall k :: 0 <= k < |projects| ==> WellFormedProject(projects[k], now)
    ensures StatsOf(projects, now).totalMessages == |FlatMap(AllSessions(projects), RecordsOf)|
  {
    if projects != [] {
      var p := projects[0];
      assert WellFormedProject(p, now);
      TotalMessagesCountsRecords(projects[1..], now);
      SessionsMessageSum(p.sessions, now);
      FlatMapConcat(p.sessions, AllSessions(projects[1..]), RecordsOf);
    }
  }

  /** The mean duration of sessions built by the reader is never negative. */
  lemma AverageNonNegative(projects: seq<ClaudeProject>, now: int)
    requires forall k :: 0 <= k < |projects| ==> WellFormedProject(projects[k], now)
    ensures StatsOf(projects, now).averageSessionDuration >= 0.0
  {
    SessionsOfWellFormed(projects, now);
    var sessions := AllSessions(projects);
    forall s | s in sessions ensures s.duration >= 0 {
      var k :| 0 <= k < |sessions| && sessions[k] == s;
    }
    SumNonNegative(sessions, DurationOf);
  }

  // --------------------------------------------------------------- statsig

  /** The statsig reader needs both id files; it takes the first of each and every evaluation cache, in order. */
  lemma StatsigSelection(files: seq<string>)
    ensures SelectStatsigFiles(files).None? <==>
      (forall i :: 0 <= i < |files| ==> !IsSessionIdFile(files[i]))
      || (forall i :: 0 <= i < |files| ==> !IsStableIdFile(files[i]))
    ensures SelectStatsigFiles(files).Some? ==>
      var sel := SelectStatsigFiles(files).value;
      && (exists i :: 0 <= i < |files| && files[i] == sel.sessionFile && IsSessionIdFile(files[i])
            && forall j :: 0 <= j < i ==> !IsSessionIdFile(files[j]))
      && (exists i :: 0 <= i < |files| && files[i] == sel.stableFile && IsStableIdFile(files[i])
            && forall j :: 0 <= j < i ==> !IsStableIdFile(files[j]))
      && sel.evaluationFiles == Filter(files, IsEvaluationFile)
  {
    var i, k := FindIndex(files, IsSessionIdFile), FindIndex(files, IsStableIdFile);
    if i >= 0 && k >= 0 {
      var sel := SelectStatsigFiles(files).value;
      assert files[i] == sel.sessionFile && IsSessionIdFile(files[i]);
      assert files[k] == sel.stableFile && IsStableIdFile(files[k]);
    }
  }

  /**
   * The statsig reader finds its files only in a listable statsig directory
   * holding both id files; what it picks is the selection over the names.
   */
  lemma StatsigListing(root: ClaudeDir)
    ensures ReadDir(root.statsig).None? ==> StatsigFilesOf(root).None?
    ensures StatsigFilesOf(root).Some? <==>
      && ReadDir(root.statsig).Some?
      && (exists i :: 0 <= i < |ReadDir(root.statsig).value| && IsSessionIdFile(ReadDir(root.statsig).value[i].name))
      && (exists i :: 0 <= i < |ReadDir(root.statsig).value| && IsStableIdFile(ReadDir(root.statsig).value[i].name))
    ensures StatsigFilesOf(root).Some? ==> StatsigFilesOf(root) == SelectStatsigFiles(EntryNames(ReadDir(root.statsig).value))
  {
    if ReadDir(root.statsig).Some? {
      var entries := ReadDir(root.statsig).value;
      var names := EntryNames(entries);
      StatsigSelection(names);
      if exists i :: 0 <= i < |entries| && IsSessionIdFile(entries[i].name) {
        var i :| 0 <= i < |entries| && IsSessionIdFile(entries[i].name);
        assert IsSessionIdFile(names[i]);
      }
      if exists i :: 0 <= i < |entries| && IsStableIdFile(entries[i].name) {
        var i :| 0 <= i < |entries| && IsStableIdFile(entries[i].name);
        assert IsStableIdFile(names[i]);
      }
    }
  }
}
