# Claude Code Visualizer: a verified model of its core logic

The visualizer reads the log directory of a coding assistant and shows it in a dashboard. The log directory holds `projects/<project>/<session>.jsonl` and `todos/<session>*.json`. This project models the parts of the visualizer that compute something, and proves what they guarantee:

- **The log reader** (`ClaudeFs`, properties in `ClaudeFsProperties`). It turns every JSON line into a conversation record, with a fixed order of fallbacks for the message body. It builds sessions by a running minimum and maximum of timestamps, and attaches todos read from the todo files. It rolls sessions up into projects, sorts the projects by last activity, and computes the dashboard statistics. The directory tree is an in-memory value `Node`. A read that fails is `None`, and an entry that cannot be `stat`ed is `Dangling`. The loops of the source are methods with loop invariants, each proved equal to a specification function.
- **The conversation store** (`ConversationModel`). This is a class with `conversations`, `filteredConversations`, `filters` and `selectedConversation`. Filtering runs five optional filters in order, then a stable newest-first sort. The search step can throw on non-string content. When it throws, `applyFilters` keeps its old state, while `setConversations` keeps the new records (stored before filtering starts) and the old filtered list.
- **The session store** (`SessionModel`). This is a class whose `SetSessions` flattens the sessions into conversation and todo lists, with lookups over those lists.
- **The toast manager** (`ToastModel`). This is a class with a toast list, a listener list, and a log `delivered` of what each notification handed to each listener.
- **The pure helpers of the views** (`ConversationDetail`, `MessageContentModel`, `SessionListView`, `TodoBoardView`, `ConversationTimelineView`):
  - the task-plan scanner, an exact model of the two `/gm` regular expressions and of the `exec` loop;
  - the expand/collapse toggle;
  - content stringification and truncation;
  - tool summaries;
  - the duration label;
  - the one-hour activity test;
  - the todo-progress icon;
  - the status columns;
  - the filter objects the timeline hands to the conversation store.

The support modules are `Optional`, `Seqs` (filter, flat-map, a stable sort by key, and their lemmas), `Text` (digits, trimming, splitting, ASCII lower case), `JsValues` (JavaScript values with truthiness, `||`, member access that throws on `null`/`undefined`, and `String(x)`) and `ClaudeTypes` (the record shapes).

Anything that is not a function of its inputs is a parameter:

- The clock, `JSON.parse`, `JSON.stringify`, date parsing and the random-id generator form the environment `Env`. `Env.now` is the one clock reading of a call.
- The statistics take their own clock reading, `statsNow`.
- The pretty printer `JSON.stringify(v, null, 2)` is the function parameter `pretty`. The markdown heuristic is the function parameter `isMarkdown`.
- Toast ids and listener identities are arguments.

JavaScript numbers are integers here: timestamps and durations in milliseconds. The one mean, the average session duration, is a `real`.

One might expect two records ten minutes apart to give a session duration of 600000 ms. But `readSession` seeds both `startTime` and `lastUpdate` with the current time (`src/shared/api/claude-fs/index.ts:84-85`). For records older than the clock, the duration therefore runs from the earliest record up to the clock. `ClaudeFsProperties.DurationRunsToNow` proves this on the two-record example.

## Model

| member | source | states |
|---|---|---|
| ClaudeFs.DateOrNow | src/shared/api/claude-fs/index.ts:120 | A missing or falsy timestamp is replaced by the clock reading, for records here and for todos at lines 189-190. |
| ClaudeFs.MessageBody | src/shared/api/claude-fs/index.ts:92-109 | The record body by its fallback order; the order is stated by `ClaudeFsProperties.MessageBodyPrecedence`. |
| ClaudeFs.Normalize | src/shared/api/claude-fs/index.ts:89-122 | A parsed line yields a record exactly when it is not `null`/`undefined`; reading `data.message` throws otherwise. The record carries the session id. |
| ClaudeFs.ConversationsOf | src/shared/api/claude-fs/index.ts:87-135 | At most one record per line, each tagged with the session id. |
| ClaudeFs.ParseLine | src/shared/api/claude-fs/index.ts:88-134 | One line gives a record when it parses and normalises, and nothing when either step throws; `ClaudeFsProperties.ConversationsAreParsedLines` states this over a whole file. |
| ClaudeFs.SessionLines | src/shared/api/claude-fs/index.ts:81 | The lines of the trimmed file whose trimmed text is not empty; `ClaudeFsProperties.SessionLinesNonBlank` states that these are the non-blank lines of the split, in order and with their copies. |
| ClaudeFs.Earliest | src/shared/api/claude-fs/index.ts:84-128 | The running minimum is at most the seed and every record's time, and equals the seed or one of those times. |
| ClaudeFs.Latest | src/shared/api/claude-fs/index.ts:85-131 | The running maximum is at least the seed and every record's time, and equals the seed or one of those times. |
| ClaudeFs.RunningBoundsSnoc | src/shared/api/claude-fs/index.ts:126-131 | One more record updates the minimum and maximum exactly as one loop step does. |
| ClaudeFs.ConversationsOfSnoc | src/shared/api/claude-fs/index.ts:87-135 | The records of one more line are the earlier records plus what that line yields. |
| ClaudeFs.SessionOf | src/shared/api/claude-fs/index.ts:78-163 | The session read from a file, or the empty session when the file cannot be read; `ClaudeFsProperties.SessionTimes`, `SessionReadFailure` and `SessionOfWellFormed` state its properties. |
| ClaudeFs.EmptySession | src/shared/api/claude-fs/index.ts:150-162 | The session of an unreadable file: no records or todos, both times the clock, count and duration 0; `ClaudeFsProperties.SessionReadFailure` states that `SessionOf` gives it exactly then. |
| ClaudeFs.SessionFrom | src/shared/api/claude-fs/index.ts:137-149 | The session of the parsed records: the clock-seeded running bounds, their count and the difference of the bounds; `ClaudeFsProperties.SessionTimes` states their properties. |
| ClaudeFs.ProjectIdOf | src/shared/api/claude-fs/index.ts:142 | The project id is the longest prefix of the session id without `-`: all of it when there is no `-`, else it stops right before the first `-`. |
| ClaudeFs.TodoOf | src/shared/api/claude-fs/index.ts:182-191 | Reading a todo element throws exactly when the element is `null`/`undefined`. |
| ClaudeFs.TodosOf | src/shared/api/claude-fs/index.ts:165-201 | The session's todos, or none when listing or any file fails; `ClaudeFsProperties.TodosFromSessionFiles` states which files contribute and how they fail. |
| ClaudeFs.TodoFileTodos | src/shared/api/claude-fs/index.ts:177-193 | The todos of one file; `ClaudeFsProperties.TodoFileFails` states when it fails and that a non-array contributes nothing, `TodoFileTagged` that each todo carries the session id. |
| ClaudeFs.ReadTodoFile | src/shared/api/claude-fs/index.ts:176-194 | The loop over one todo file's array computes the file's todos, failing as the file's specification function does. |
| ClaudeFs.ReadTodos | src/shared/api/claude-fs/index.ts:165-201 | `readTodos` computes the session's todo list: empty when the directory cannot be listed or any file fails. |
| ClaudeFs.ReadTodoFiles | src/shared/api/claude-fs/index.ts:176-196 | The loop over the session's todo files concatenates their todos in order and fails at the first file that fails. |
| ClaudeFs.ReadLines | src/shared/api/claude-fs/index.ts:84-135 | The line loop pushes exactly the parsed records and keeps the clock-seeded running minimum and maximum. |
| ClaudeFs.ReadSession | src/shared/api/claude-fs/index.ts:78-163 | `readSession` computes the session that `SessionOf` specifies, failure path included. |
| ClaudeFs.ReadSessionContent | src/shared/api/claude-fs/index.ts:81-149 | Once the file is read, the line loop and the todo read give the session of the parsed records: its times are their running bounds seeded with the clock, its count their number, its duration the difference. |
| ClaudeFs.ReadProject | src/shared/api/claude-fs/index.ts:49-76 | `readProject` computes the project that `ProjectOf` specifies, or none when the directory cannot be listed. |
| ClaudeFs.ReadSessionFiles | src/shared/api/claude-fs/index.ts:53-59 | The loop over a project's entries reads one session per ".jsonl" file, in listing order, and skips the rest. |
| ClaudeFs.SessionIdOf | src/shared/api/claude-fs/index.ts:55 | The session id is the file name with its first ".jsonl" removed, so two names can give one id; `SessionModel.FilterOwnConversations` covers repeated ids. |
| ClaudeFs.ProjectName | src/shared/api/claude-fs/index.ts:271-275 | The project name; `ClaudeFsProperties.ProjectNameSpec` states it independently. |
| ClaudeFs.ProjectFrom | src/shared/api/claude-fs/index.ts:61-75 | The project of its sessions; `ClaudeFsProperties.ProjectOfSpec` states its fields. |
| ClaudeFs.SessionEntry | src/shared/api/claude-fs/index.ts:54-58 | A `.jsonl` entry gives its one session and any other entry none; `ClaudeFsProperties.ProjectOfSpec` states the result per entry. |
| ClaudeFs.SessionsOf | src/shared/api/claude-fs/index.ts:50-59 | The sessions of a project directory, one per `.jsonl` entry in listing order; `ClaudeFsProperties.ProjectOfSpec` states this. |
| ClaudeFs.ProjectOf | src/shared/api/claude-fs/index.ts:49-76 | The project of a directory, or none when it cannot be listed; `ClaudeFsProperties.ProjectOfSpec` and `ProjectOfWellFormed` state its properties. |
| ClaudeFs.ProjectEntry | src/shared/api/claude-fs/index.ts:33-39 | What one entry of the projects directory gives: a failure when it cannot be `stat`ed or listed, nothing for a file, its project for a directory; `ClaudeFsProperties.ProjectEntryCases` states the cases. |
| ClaudeFs.ReadProjects | src/shared/api/claude-fs/index.ts:25-47 | `readProjects` computes the sorted project list that `AllProjects` specifies, empty after any error in the walk. |
| ClaudeFs.ReadProjectEntries | src/shared/api/claude-fs/index.ts:31-40 | The loop over the projects directory reads one project per subdirectory, in listing order, skips files, and fails at the first entry it cannot `stat` or list. |
| ClaudeFs.AllProjects | src/shared/api/claude-fs/index.ts:25-47 | The sorted project list; `ClaudeFsProperties.AllProjectsSpec` and `AllProjectsStable` state its properties. |
| ClaudeFs.StatsOf | src/shared/api/claude-fs/index.ts:240-269 | The totals count the projects, the flattened sessions and the flattened todos. The active counts are the number of projects and sessions whose time is strictly later than one day before the clock; the completed count is the number of todos with status "completed"; each is at most its total. The message total is the sum of the projects' totals. The mean is 0 without sessions and sum over count otherwise. |
| ClaudeFs.MeanDuration | src/shared/api/claude-fs/index.ts:255-257 | The mean is 0 without sessions, else it times the count is the sum of durations; it is never negative when that sum is not. |
| ClaudeFs.SelectStatsigFiles | src/shared/api/claude-fs/index.ts:208-214 | The statistics files to read; `ClaudeFsProperties.StatsigSelection` states the choice. |
| ClaudeFs.StatsigFilesOf | src/shared/api/claude-fs/index.ts:203-214 | The statsig reader's choice of files from the listing of the statsig directory; `ClaudeFsProperties.StatsigListing` states it. |
| ClaudeFs.GetProjectStats | src/shared/api/claude-fs/index.ts:240-269 | `getProjectStats` gives the statistics of the sorted project list. |
| ClaudeFsProperties.MessageBodyPrecedence | src/shared/api/claude-fs/index.ts:92-109 | The body is chosen in order: a string `message` (even empty); from an object `message`, its truthy `content`, else its truthy `text`, else its JSON; otherwise the record's truthy `content`, then `text`, then "No content available". |
| ClaudeFsProperties.NormalizeDefaults | src/shared/api/claude-fs/index.ts:111-122 | Record defaults: the id is the record's own when truthy and a generated one otherwise; the type is the record's truthy `type`, else "user"; the role is the message's truthy `role`, else that type; tools and parent copied; a missing timestamp is the clock. |
| ClaudeFsProperties.ConversationsAreParsedLines | src/shared/api/claude-fs/index.ts:87-135 | The records are exactly the lines that parse and normalise without throwing, in file order, each from its own line. |
| ClaudeFsProperties.SessionLinesNonBlank | src/shared/api/claude-fs/index.ts:81 | The processed lines are exactly the non-blank lines of the split file: in order, each non-blank, and every non-blank line kept with all its copies. |
| ClaudeFsProperties.SessionTimes | src/shared/api/claude-fs/index.ts:84-138 | Duration is `lastUpdate - startTime >= 0`; each end is the clock or some record's time; without records both are the clock and the duration is 0. |
| ClaudeFsProperties.SessionReadFailure | src/shared/api/claude-fs/index.ts:150-162 | A session file that cannot be read gives the empty session: no records, no todos, count 0, duration 0. |
| ClaudeFsProperties.SessionOfWellFormed | src/shared/api/claude-fs/index.ts:140-149 | Every session the reader builds has the right project id, `messageCount` equal to its number of records, all record times between its ends, the clock between its ends and all items tagged with its id. |
| ClaudeFsProperties.DurationRunsToNow | src/shared/api/claude-fs/index.ts:84-138 | Two records ten minutes apart, both before the clock, give a duration up to the clock, not 600000. |
| ClaudeFsProperties.TodoFileFails | src/shared/api/claude-fs/index.ts:176-194 | A todo file fails exactly when it cannot be read or parsed, or when its array holds `null`/`undefined`; parsed JSON that is not an array contributes no todos. |
| ClaudeFsProperties.TodoFileTagged | src/shared/api/claude-fs/index.ts:183-191 | Every todo read from a file carries the session id. |
| ClaudeFsProperties.TodosTagged | src/shared/api/claude-fs/index.ts:165-201 | Every todo of a session carries the session id. |
| ClaudeFsProperties.TodosFromSessionFiles | src/shared/api/claude-fs/index.ts:170-200 | Todos come only from the files whose names start with the session id and end in ".json", in listing order; one failing file, or an unreadable directory, leaves the session with no todos. |
| ClaudeFsProperties.ProjectNameSpec | src/shared/api/claude-fs/index.ts:271-275 | The name is the text after the last `-` or `/` of the directory name, or "Unknown Project" when that text is empty. |
| ClaudeFsProperties.ProjectOfSpec | src/shared/api/claude-fs/index.ts:49-76 | A project exists exactly when its directory can be listed. It has one session per ".jsonl" entry, in order; `totalSessions` and `totalMessages` are their count and message sum; `lastActivity` is their latest update, or the clock without sessions; the path has every `-` replaced by `/`. |
| ClaudeFsProperties.ProjectOfWellFormed | src/shared/api/claude-fs/index.ts:49-76 | Every project the reader builds is consistent: totals match, every session is well formed, and the last activity bounds every session's last update and the clock. |
| ClaudeFsProperties.ProjectEntryCases | src/shared/api/claude-fs/index.ts:32-40 | The walk fails on an entry it cannot `stat` or list, skips files, and keeps one project per directory. |
| ClaudeFsProperties.AllProjectsSpec | src/shared/api/claude-fs/index.ts:25-47 | The list is sorted by last activity, newest first, and is a permutation of the walk's projects. It is empty when the walk fails anywhere. Every project comes from a directory entry of that name. |
| ClaudeFsProperties.AllProjectsStable | src/shared/api/claude-fs/index.ts:42 | Projects with the same last activity keep the order of the directory listing. |
| ClaudeFsProperties.AllProjectsWellFormed | src/shared/api/claude-fs/index.ts:25-47 | Every listed project is well formed. |
| ClaudeFsProperties.SessionsOfWellFormed | src/shared/api/claude-fs/index.ts:246 | Every session of the flattened list is well formed. |
| ClaudeFsProperties.AllActiveWithinADay | src/shared/api/claude-fs/index.ts:242-249 | Statistics computed within a day of reading count every project and every session as active, because the reader seeds each session's last update with its clock (lines 84-85). |
| ClaudeFsProperties.ActiveWindowIsStrict | src/shared/api/claude-fs/index.ts:242-249 | The one-day window is strict: in any project list, each project adds one to `activeProjects` exactly when its last activity is later than one day before the clock, so a project exactly a day old adds nothing. |
| ClaudeFsProperties.ActiveSessionWindowIsStrict | src/shared/api/claude-fs/index.ts:242-249 | In any project list, each session adds one to `activeSessions` exactly when its last update is later than one day before the clock. |
| ClaudeFsProperties.SessionsMessageSum | src/shared/api/claude-fs/index.ts:65 | The message counts of well-formed sessions sum to their number of records. |
| ClaudeFsProperties.TotalMessagesCountsRecords | src/shared/api/claude-fs/index.ts:251 | The message total counts exactly the records of all sessions, each session's count being set at line 65. |
| ClaudeFsProperties.AverageNonNegative | src/shared/api/claude-fs/index.ts:255-257 | The mean duration of sessions built by the reader is never negative. |
| ClaudeFsProperties.StatsigSelection | src/shared/api/claude-fs/index.ts:208-214 | Statistics files are read only when both id files exist; the first of each is taken, with every cached-evaluation file in order. |
| ClaudeFsProperties.StatsigListing | src/shared/api/claude-fs/index.ts:203-237 | Files are chosen only when the statsig directory can be listed (a throwing `readdir` is caught and gives `null`) and lists both id files; the choice is the selection over the entry names. |
| ConversationModel.ConversationStore.constructor | src/entities/conversation/model/conversation.ts:28-33 | The store starts empty, with no filters and no selection. |
| ConversationModel.ConversationStore.SearchFilter | src/entities/conversation/model/conversation.ts:107-112 | The search loop computes the search stage, throwing at the first non-string content. |
| ConversationModel.ConversationStore.RunFilters | src/entities/conversation/model/conversation.ts:88-125 | The filter-then-sort steps compute the pipeline's result. |
| ConversationModel.ConversationStore.SetConversations | src/entities/conversation/model/conversation.ts:35-78 | The new list is stored, and the filtered list is recomputed with the stored filters, which stay unchanged; when filtering throws, the old filtered list stays. |
| ConversationModel.ConversationStore.SelectConversation | src/entities/conversation/model/conversation.ts:80-82 | Only the selection changes. |
| ConversationModel.ConversationStore.ClearSelection | src/entities/conversation/model/conversation.ts:84-86 | Only the selection is cleared. |
| ConversationModel.ConversationStore.ApplyFilters | src/entities/conversation/model/conversation.ts:88-128 | On success the filters are replaced wholesale and the filtered list is the pipeline's result. On a throw nothing changes. Conversations and selection never change. |
| ConversationModel.ConversationStore.ClearFilters | src/entities/conversation/model/conversation.ts:130-132 | The filters become empty and the filtered list is the stored list exactly, unsorted. |
| ConversationModel.ConversationStore.SearchConversations | src/entities/conversation/model/conversation.ts:134-137 | It is `applyFilters` of the current filters with only the search term replaced. |
| ConversationModel.ConversationStore.GetConversationsByType | src/entities/conversation/model/conversation.ts:139-141 | An order-preserving sublist holding exactly the stored records of that type, each with all its copies. |
| ConversationModel.ConversationStore.GetConversationsBySession | src/entities/conversation/model/conversation.ts:143-145 | An order-preserving sublist holding exactly the stored records of that session, each with all its copies. |
| ConversationModel.ConversationStore.SetError | src/entities/conversation/model/conversation.ts:147-149 | Only the error changes. |
| ConversationModel.BeforeSearchStages | src/entities/conversation/model/conversation.ts:93-104 | The type and date-range stages keep exactly the records passing both tests, in order. |
| ConversationModel.SearchStage | src/entities/conversation/model/conversation.ts:107-112 | When the search stage does not throw, it adds the case-insensitive content test. |
| ConversationModel.AfterSearchStages | src/entities/conversation/model/conversation.ts:115-122 | The session and project stages complete the conjunction of all active filters. |
| ConversationModel.FilterResult | src/entities/conversation/model/conversation.ts:88-125 | The filter pipeline's result; `FilterResultSpec`, `FilterResultThrows`, `FilteredListProperties` and `FilteredListStable` state its properties. |
| ConversationModel.BeforeSearch | src/entities/conversation/model/conversation.ts:92-104 | The type and date-range stages; `BeforeSearchStages` states that they keep exactly the records passing both tests, in order. |
| ConversationModel.Search | src/entities/conversation/model/conversation.ts:106-112 | The search stage, which fails on non-string content; `SearchStage` states what it keeps when it does not fail. |
| ConversationModel.AfterSearch | src/entities/conversation/model/conversation.ts:114-122 | The session-id and project-id stages; `AfterSearchStages` states that they complete the conjunction of the active filters. |
| ConversationModel.FilterResultSpec | src/entities/conversation/model/conversation.ts:88-125 | The filtered list is the stable newest-first sort of the sublist matching every active filter. |
| ConversationModel.FilterResultThrows | src/entities/conversation/model/conversation.ts:107-112 | Filtering throws exactly when a search term is set and a record passing the earlier stages has non-string content. |
| ConversationModel.FilteredListProperties | src/entities/conversation/model/conversation.ts:93-125 | Every kept record is stored and matches every active filter; no matching record is dropped; the result is a permutation of the matching sublist, sorted newest first. |
| ConversationModel.FilteredListStable | src/entities/conversation/model/conversation.ts:125 | Records with equal timestamps keep their stored order. |
| ConversationModel.NoSearchNoThrow | src/entities/conversation/model/conversation.ts:107-112 | Without a search term, filtering never throws. |
| SessionModel.SessionStore.constructor | src/entities/session/model/session.ts:26-31 | The store starts empty. |
| SessionModel.SessionStore.SetSessions | src/entities/session/model/session.ts:33-41 | It stores the sessions and the in-order concatenation of their records and of their todos; selection, loading flag and error stay, so a stale selection survives. |
| SessionModel.SessionStore.SelectSession | src/entities/session/model/session.ts:43-45 | Only the selection changes. |
| SessionModel.SessionStore.ClearSelection | src/entities/session/model/session.ts:47-49 | Only the selection is cleared. |
| SessionModel.SessionStore.GetSessionById | src/entities/session/model/session.ts:51-53 | The first stored session with that id, or none exactly when no session has it. |
| SessionModel.SessionStore.GetConversationsBySession | src/entities/session/model/session.ts:55-57 | An order-preserving sublist holding exactly the flattened records of that session, each with all its copies. |
| SessionModel.SessionStore.GetTodosBySession | src/entities/session/model/session.ts:59-61 | An order-preserving sublist holding exactly the flattened todos of that session, each with all its copies. |
| SessionModel.SessionStore.SetError | src/entities/session/model/session.ts:63-65 | Only the error changes. |
| SessionModel.TaggedTail | src/entities/session/model/session.ts:33-41 | Sessions whose items carry their id stay so without the first session. |
| SessionModel.FilterOwnConversations | src/entities/session/model/session.ts:55-57 | For sessions whose records carry their id, even with repeated ids, the flattened records of one id are the records of every session with that id, in order. |
| SessionModel.FilterOwnTodos | src/entities/session/model/session.ts:59-61 | For sessions whose todos carry their id, even with repeated ids, the flattened todos of one id are the todos of every session with that id, in order. |
| SessionModel.NoOtherWithId | src/entities/session/model/session.ts:51-53 | With distinct ids, exactly one session has a given session's id. |
| SessionModel.LookupAfterSetSessions | src/entities/session/model/session.ts:33-61 | For sessions with distinct ids whose items carry their id, looking up by a session's id in the flattened lists gives back exactly that session's own records and todos. |
| ToastModel.Broadcast | src/shared/lib/toast.ts:14-16 | One delivery per listener, in order, each with a copy of the current list. |
| ToastModel.ToastManager.constructor | src/shared/lib/toast.ts:11-12 | No toasts, no listeners, nothing delivered. |
| ToastModel.ToastManager.Notify | src/shared/lib/toast.ts:14-16 | Each registered listener receives the current list once, in registration order; nothing else changes. |
| ToastModel.ToastManager.AddToast | src/shared/lib/toast.ts:18-31 | One toast with the given message and type is appended, the listeners are notified of the new list, and its id is returned. |
| ToastModel.ToastManager.RemoveToast | src/shared/lib/toast.ts:33-36 | Every toast with that id is removed, the rest stay in order, and the listeners are notified. |
| ToastModel.ToastManager.Success | src/shared/lib/toast.ts:38-40 | It adds a toast of type success. |
| ToastModel.ToastManager.Error | src/shared/lib/toast.ts:42-44 | It adds a toast of type error. |
| ToastModel.ToastManager.Info | src/shared/lib/toast.ts:46-48 | It adds a toast of type info. |
| ToastModel.ToastManager.Warning | src/shared/lib/toast.ts:50-52 | It adds a toast of type warning. |
| ToastModel.ToastManager.Subscribe | src/shared/lib/toast.ts:54-55 | The listener is appended; nothing is delivered. |
| ToastModel.ToastManager.Unsubscribe | src/shared/lib/toast.ts:56-58 | Every registration of that listener, and no other, is dropped. |
| ToastModel.WithoutSpec | src/shared/lib/toast.ts:34 | The kept toasts are an ordered sublist with no toast of that id, and every other toast keeps its number of copies. |
| ToastModel.Without | src/shared/lib/toast.ts:34 | The toasts other than those with the id; `WithoutSpec`, `WithoutUnknown` and `RemoveIdempotent` state its properties. |
| ToastModel.WithoutUnknown | src/shared/lib/toast.ts:34 | Removing an unknown id leaves the list unchanged. |
| ToastModel.AddThenRemove | src/shared/lib/toast.ts:22-34 | Removing a freshly added toast whose id is new restores the list. |
| ToastModel.RemoveIdempotent | src/shared/lib/toast.ts:34 | Removing the same id twice is removing it once. |
| ToastModel.UnsubscribeSpec | src/shared/lib/toast.ts:57 | After unsubscribing, the listener is gone, the others keep their order and multiplicity, and no later notification reaches it. |
| ConversationDetail.ContentText | src/features/context-viewer/ui/conversation-detail.tsx:60-68 | A string is returned unchanged; an array or object is its pretty JSON; another falsy value is "No content"; a non-zero number is its decimal text; `true` is "true". |
| ConversationDetail.ContentTextEmpty | src/features/context-viewer/ui/conversation-detail.tsx:60-68 | The text is empty only for the empty string or an object whose JSON is empty. |
| ConversationDetail.DetailText | src/features/context-viewer/ui/conversation-detail.tsx:102 | The scanned text is that of the message content when truthy, else of the whole message object. |
| ConversationDetail.TaskPlan | src/features/context-viewer/ui/conversation-detail.tsx:81-100 | The task plan of a text; `ExtractTaskPlan`, `TaskPlanStyles` and `NoItemsNoPlan` state its properties. |
| ConversationDetail.Index0 | src/features/context-viewer/ui/conversation-detail.tsx:146 | Indexing `[0]` throws exactly on `null`/`undefined`. |
| ConversationDetail.DetailBody | src/features/context-viewer/ui/conversation-detail.tsx:146 | The shown body; `DetailBodyCases` states when it throws and what it shows. |
| ConversationDetail.DetailBodyCases | src/features/context-viewer/ui/conversation-detail.tsx:146 | Reading `content[0].text`, with the whole message as fallback, throws exactly when the content or its first element is nullish, so it throws for empty string content. A non-empty string falls back to the message object. An array whose first element has a truthy `text` gives that text. |
| ConversationDetail.Toggle | src/features/context-viewer/ui/conversation-detail.tsx:70-78 | The index's membership flips and every other index is unchanged. |
| ConversationDetail.ToggleTwice | src/features/context-viewer/ui/conversation-detail.tsx:70-78 | Toggling twice restores the set. |
| ConversationDetail.ToggleCommutes | src/features/context-viewer/ui/conversation-detail.tsx:70-78 | Toggles of two indices commute. |
| ConversationDetail.RunEnd | src/features/context-viewer/ui/conversation-detail.tsx:85-93 | The greedy end of a run of characters with a property. |
| ConversationDetail.MarkerEnd | src/features/context-viewer/ui/conversation-detail.tsx:85-93 | The end of `\d+\.` or `[-*]` lies after the match position. |
| ConversationDetail.LastTextStart | src/features/context-viewer/ui/conversation-detail.tsx:85-93 | Backtracking `\s+` gives back only line terminators after the last possible start of `.+`. |
| ConversationDetail.MatchAt | src/features/context-viewer/ui/conversation-detail.tsx:85-93 | A match lies within the text, with its capture starting after the marker. |
| ConversationDetail.MarkerUnique | src/features/context-viewer/ui/conversation-detail.tsx:85-93 | The marker part of a match can end at only one place. |
| ConversationDetail.MatchAtIsPreferredMatch | src/features/context-viewer/ui/conversation-detail.tsx:85-93 | The computed match is a valid match of the pattern at a line start. Among all valid matches there it is the one the backtracking engine prefers: latest capture start, then longest capture. None exactly when no valid match exists. `\s+` may cross a newline; `.+` may not. |
| ConversationDetail.Exec | src/features/context-viewer/ui/conversation-detail.tsx:87-94 | `exec` from `lastIndex` returns a match starting at or after it. |
| ConversationDetail.ExecFindsFirst | src/features/context-viewer/ui/conversation-detail.tsx:87-94 | No match starts between `lastIndex` and the returned match. |
| ConversationDetail.ScanFrom | src/features/context-viewer/ui/conversation-detail.tsx:87-96 | Every captured item is non-empty and holds no line terminator. |
| ConversationDetail.CollectMatches | src/features/context-viewer/ui/conversation-detail.tsx:86-96 | The `exec` loop collects, in order, the captures of successive matches. |
| ConversationDetail.ScanStep | src/features/context-viewer/ui/conversation-detail.tsx:87-88 | Each `exec` strictly advances `lastIndex`, and the scan is that capture followed by the scan from the match's end. |
| ConversationDetail.ExtractTaskPlan | src/features/context-viewer/ui/conversation-detail.tsx:81-100 | The task plan: the numbered items, or, only when there are none, the dash and star items. |
| ConversationDetail.TaskPlanFor | src/features/context-viewer/ui/conversation-detail.tsx:102-103 | Only assistant messages have a task plan, extracted from their content text. |
| ConversationDetail.TaskPlanStyles | src/features/context-viewer/ui/conversation-detail.tsx:92-97 | The plan is all numbered items or all bulleted items, never a mix; every item is a non-empty single line. |
| ConversationDetail.NoItemsNoPlan | src/features/context-viewer/ui/conversation-detail.tsx:81-100 | A text with no list line has an empty plan. |
| ConversationDetail.MarkerAloneTakesNextLine | src/features/context-viewer/ui/conversation-detail.tsx:85 | "1." alone on a line captures the next line, because `\s+` crosses the newline. |
| MessageContentModel.StringContent | src/components/ui/message-content.tsx:19-33 | Every falsy value (including "" and 0) is "No content available"; a non-empty string is shown as it is; an object is its pretty JSON; a non-zero number is its decimal text, sign included; `true` is "true". |
| MessageContentModel.StringContentNonEmpty | src/components/ui/message-content.tsx:19-33 | The shown text is never empty unless an object's JSON is. |
| MessageContentModel.FinalContent | src/components/ui/message-content.tsx:60-63 | Text is cut only when truncation is on and it is longer than the limit; then it is its first `maxLength` characters (none for a negative limit) plus "...". |
| MessageContentModel.FinalContentBound | src/components/ui/message-content.tsx:60-63 | With truncation on, at most the limit plus three characters are shown, beginning with a prefix of the text. |
| MessageContentModel.FinalContentShort | src/components/ui/message-content.tsx:61 | Text within the limit is not changed. |
| MessageContentModel.DefaultLimitBound | src/components/ui/message-content.tsx:16 | With the default limit of 200, a truncated text shows at most 203 characters, and a text within 200 characters is shown whole. |
| MessageContentModel.Render | src/components/ui/message-content.tsx:60-92 | The JSON block is chosen exactly for a non-null object, before the markdown test; everything else is markdown or plain text by the heuristic; all three show the final content. |
| MessageContentModel.JsonBlockShowsJson | src/components/ui/message-content.tsx:66-78 | Without truncation the JSON block shows the object's JSON. |
| MessageContentModel.ToolDescription | src/components/ui/message-content.tsx:96-112 | A tool outside the ten-entry table gives "Used tool: <name>". A listed tool fails only for a nullish parameter object. |
| MessageContentModel.KnownTool | src/components/ui/message-content.tsx:97-108 | The ten-entry tool table: the text before the parameter and the parameter shown; `ToolDescriptionShowsParameter` states the summary it gives. |
| MessageContentModel.ToolDescriptionShowsParameter | src/components/ui/message-content.tsx:97-111 | A listed tool's summary is its fixed prefix followed by the parameter's string value, and for Grep a closing quote. |
| MessageContentModel.ToolDescriptionDistinguishesFallback | src/components/ui/message-content.tsx:97-111 | A listed tool's summary never reads as the fallback. |
| SessionListView.FormatDurationRoundTrip | src/features/session-tracker/ui/session-list.tsx:14-22 | The label of a duration reads back as its whole minutes, `ms / 60000`, whether it is shown as "<h>h <m>m" or as "<m>m". |
| SessionListView.FormatDuration | src/features/session-tracker/ui/session-list.tsx:14-22 | The duration label; `FormatDurationRoundTrip` and `FormatDurationMinutesBelowHour` state what it shows. |
| SessionListView.ReadHoursMinutes | src/features/session-tracker/ui/session-list.tsx:19 | "<h>h <m>m" reads back as `60h + m` minutes. |
| SessionListView.ReadMinutes | src/features/session-tracker/ui/session-list.tsx:21 | "<m>m" reads back as `m` minutes. |
| SessionListView.FormatDurationMinutesBelowHour | src/features/session-tracker/ui/session-list.tsx:15-19 | From one hour on the label is "<h>h <m mod 60>m", with the minutes part below 60. |
| SessionListView.StatusColor | src/features/session-tracker/ui/session-list.tsx:33-37 | The badge is "default" exactly when the last update is strictly within the last hour, else "secondary". |
| SessionListView.IsActive | src/features/session-tracker/ui/session-list.tsx:35 | The strict one-hour test; `StatusColor` and `ActivityLabel` state its use. |
| SessionListView.ActivityLabel | src/features/session-tracker/ui/session-list.tsx:104 | The badge text is "Active" exactly when the last update is strictly after `now - 3600000`. |
| SessionListView.BadgeAgrees | src/features/session-tracker/ui/session-list.tsx:103-104 | The variant (clock read inside `getStatusColor`, line 35) and the text (clock read again at line 104) agree when the two readings are equal. With the later text reading, an "Active" text always has the "default" variant, and they disagree exactly when the last update lies in the hour marks' gap `(colorAt - 3600000, labelAt - 3600000]`. |
| SessionListView.ActiveForAnHourAfterReading | src/features/session-tracker/ui/session-list.tsx:104 | A session read at some time shows as active for the hour after, whatever its records say. |
| SessionListView.CountCompleted | src/features/session-tracker/ui/session-list.tsx:40-41 | The completed count is at most the total; it equals the total exactly when all are completed, and is 0 exactly when none is. |
| SessionListView.StatusIconOf | src/features/session-tracker/ui/session-list.tsx:39-56 | The todo-progress icon; `StatusIconCases` states its three cases. |
| SessionListView.StatusIconCases | src/features/session-tracker/ui/session-list.tsx:39-56 | A check when there are todos and all are completed; an alert when some but not all are; plain when none is completed (or there are none). |
| SessionListView.TodoCounter | src/features/session-tracker/ui/session-list.tsx:130 | The counter is the number of todos with status "completed" over the number of todos. |
| SessionListView.ProjectSessions | src/features/session-tracker/ui/session-list.tsx:67-69 | An order-preserving sublist of the stored sessions holding exactly those whose id the selected project lists, each with all its copies. |
| SessionListView.SessionList | src/features/session-tracker/ui/session-list.tsx:58-78 | A prompt without a project, the empty notice exactly when the project has no stored sessions, otherwise the cards of those sessions. |
| SessionListView.Title | src/features/session-tracker/ui/session-list.tsx:100 | "Session " followed by the last eight characters of the id, or all of a shorter id. |
| TodoBoardView.ColumnsCount | src/features/todo-dashboard/ui/todo-board.tsx:21-24 | The columns hold at most as many cards as there are todos, exactly as many when every status has a column. |
| TodoBoardView.Pending | src/features/todo-dashboard/ui/todo-board.tsx:22 | The pending column; `ColumnsPartition` and `ColumnsCount` state its contents. |
| TodoBoardView.InProgress | src/features/todo-dashboard/ui/todo-board.tsx:23 | The in-progress column; `ColumnsPartition` and `ColumnsCount` state its contents. |
| TodoBoardView.Completed | src/features/todo-dashboard/ui/todo-board.tsx:24 | The completed column; `ColumnsPartition` and `ColumnsCount` state its contents. |
| TodoBoardView.ColumnsPartition | src/features/todo-dashboard/ui/todo-board.tsx:21-24 | Each column is an order-preserving sublist with exactly the todos of its status; no todo is in two columns. |
| TodoBoardView.BoardOf | src/features/todo-dashboard/ui/todo-board.tsx:124-173 | A prompt without a session, the empty view exactly when the session has no todos, otherwise the three columns of lines 21-24. |
| TodoBoardView.PriorityVariant | src/features/todo-dashboard/ui/todo-board.tsx:52-63 | high is "destructive", medium "default", low "secondary", anything else "outline". |
| TodoBoardView.MissingUpdateShowsReadTime | src/features/todo-dashboard/ui/todo-board.tsx:104 | A todo without an update time is stamped with the reading clock, so "Updated" appears exactly when its creation time differs from that reading. |
| TodoBoardView.ShowUpdated | src/features/todo-dashboard/ui/todo-board.tsx:104 | The "Updated" note shows when the update time differs from the creation time; `MissingUpdateShowsReadTime` states the case of a missing update time. |
| ConversationTimelineView.TruncateContent | src/features/context-viewer/ui/conversation-timeline.tsx:64-67 | Text within the limit is unchanged; longer text is its first `maxLength` characters plus "...", `maxLength + 3` long; a negative limit counts from the end, as `slice` does. |
| ConversationTimelineView.TruncateBound | src/features/context-viewer/ui/conversation-timeline.tsx:64-67 | A preview is at most the limit plus three characters, and short text is never lengthened. |
| ConversationTimelineView.Preview | src/features/context-viewer/ui/conversation-timeline.tsx:168 | The card's preview of string content under the default limit; `TruncateContent` and `TruncateBound` state its shape. |
| ConversationTimelineView.SessionFilter | src/features/context-viewer/ui/conversation-timeline.tsx:26 | The effect's filter object is exactly `{ sessionId }`. |
| ConversationTimelineView.SearchBoxFilter | src/features/context-viewer/ui/conversation-timeline.tsx:91-94 | Typing passes `{ sessionId, searchTerm }` and drops any type filter. |
| ConversationTimelineView.TypeButtonFilter | src/features/context-viewer/ui/conversation-timeline.tsx:101-119 | The buttons pass `{ sessionId, type }` and drop the search term. |
| ConversationTimelineView.OnSessionChange | src/features/context-viewer/ui/conversation-timeline.tsx:24-28 | With a session selected, the filters become exactly `{ sessionId }` and the list is that session's records, newest first; filtering cannot throw. |
| ConversationTimelineView.OnSearchInput | src/features/context-viewer/ui/conversation-timeline.tsx:91-94 | The store's filters become `{ sessionId, searchTerm }` and the list the pipeline's result, unless searching throws, in which case nothing changes. The records and the selection never change. |
| ConversationTimelineView.OnTypeButton | src/features/context-viewer/ui/conversation-timeline.tsx:98-123 | The filters become `{ sessionId, type }` and the list is that session's records of that type (all of them for All), newest first. The records and the selection do not change. |
| ConversationTimelineView.TypeButtonMatches | src/features/context-viewer/ui/conversation-timeline.tsx:101-119 | A type button keeps a record exactly when it belongs to the session and, for User and Assistant, is of that type. |
| ConversationTimelineView.SearchDropsType | src/features/context-viewer/ui/conversation-timeline.tsx:91-94 | After a type button, searching filters by session and term only. |

## Left out

- File-system calls are not modelled; the directory tree is an in-memory value. A read error is an abstract failure, and only the `try`/`catch` boundaries are kept.
- The reading of the statistics files (`src/shared/api/claude-fs/index.ts:216-233`) is not modelled: it only parses JSON and copies fields. The file selection before it is modelled.
- The singleton accessor (`src/shared/api/claude-fs/index.ts:15-23`) is not modelled, because it holds no logic.
- `Math.random` ids (in records and in toasts) are not modelled: they are parameters, and nothing assumes they are unique.
- `JSON.parse`, `JSON.stringify` and date parsing are functions in the environment. Their internals are not modelled, nor is the behaviour of an Invalid Date (`NaN` comparisons).
- JavaScript numbers are mathematical integers. Floating point is not modelled, except that the mean session duration is a `real`.
- `Intl.DateTimeFormat` date labels (`formatDate` in the views) are not modelled: they depend on the locale.
- `toLowerCase` is modelled as an ASCII case fold; full Unicode case mapping is not.
- String lengths are counted in characters, not UTF-16 code units.
- The markdown heuristic (`src/components/ui/message-content.tsx:35-58`) is not modelled: it is the parameter `isMarkdown`.
- ToastManager.AddToast: does not model the `setTimeout` auto-dismiss or the `duration` option, because they are timer-driven.
- MessageContentModel.ToolDescription: a tool name that is a property of `Object.prototype` (such as "toString") is treated as unknown. The source would look it up on the prototype.
- LookupAfterSetSessions: holds for sessions with distinct ids. The reader does not guarantee them: "b.jsonlc.jsonl" and "bc.jsonl.jsonl" both give the id "bc.jsonl". For repeated ids, `FilterOwnConversations` and `FilterOwnTodos` state that a lookup gives the items of every session with that id.
- StatsOf: uses one clock reading for both activity windows. The source reads `Date.now()` once per element tested, so a slow walk could see slightly different clocks.
- ConversationTimelineView.Preview: only string message content has a preview. The source also hands other content to `truncateContent`, which behaves in three ways that the model leaves out: an array of at most 200 elements passes `content.length <= maxLength` and comes back unchanged, and React then fails to render its object elements; a longer array becomes its first 200 elements joined by commas (an object element reading "[object Object]") followed by "..."; an object, number, boolean or nullish value throws at `.length` or `.slice`.
- Icon and colour switches that only choose presentation are not modelled: `getStatusIcon`/`getStatusColor` in the todo board, `getMessageIcon` in the timeline, and the empty-column caption.
- React state, rendering, effects' scheduling and the other components are not modelled.
