/**
 * The session store: the loaded sessions, every session's records and todos
 * flattened into two lists, and the selected session.
 */
module SessionModel {

  import opened Optional
  import opened Seqs
  import opened JsValues
  import opened ClaudeTypes
  import opened ConversationModel

  function ConversationsOfSession(s: ClaudeSession): seq<Conversation> {
    s.conversations
  }

  function TodosOfSession(s: ClaudeSession): seq<TodoItem> {
    s.todos
  }

  function IdIs(id: string): ClaudeSession -> bool {
    (s: ClaudeSession) => s.id == id
  }

  function TodoSessionIs(sessionId: string): TodoItem -> bool {
    (t: TodoItem) => t.sessionId == sessionId
  }

  class SessionStore {
    var sessions: seq<ClaudeSession>
    var selectedSession: Option<ClaudeSession>
    var conversations: seq<Conversation>
    var todos: seq<TodoItem>
    var isLoading: bool
    var error: Option<string>

    /** The store's initial state. */
    constructor ()
      ensures sessions == [] && selectedSession == None && conversations == [] && todos == []
      ensures !isLoading && error == None
    {
      sessions := [];
      selectedSession := None;
      conversations := [];
      todos := [];
      isLoading := false;
      error := None;
    }

    /** Stores the sessions and flattens their records and todos in session order. */
    method SetSessions(ss: seq<ClaudeSession>)
      modifies this
      ensures sessions == ss
      ensures conversations == FlatMap(ss, ConversationsOfSession)
      ensures todos == FlatMap(ss, TodosOfSession)
      ensures selectedSession == old(selectedSession) && isLoading == old(isLoading) && error == old(error)
    {
      sessions := ss;
      var allConversations := FlatMap(ss, ConversationsOfSession);
      var allTodos := FlatMap(ss, TodosOfSession);
      conversations := allConversations;
      todos := allTodos;
    }

    method SelectSession(s: ClaudeSession)
      modifies this
      ensures selectedSession == Some(s)
      ensures sessions == old(sessions) && conversations == old(conversations) && todos == old(todos)
      ensures isLoading == old(isLoading) && error == old(error)
    {
      selectedSession := Some(s);
    }

    method ClearSelection()
      modifies this
      ensures selectedSession == None
      ensures sessions == old(sessions) && conversations == old(conversations) && todos == old(todos)
      ensures isLoading == old(isLoading) && error == old(error)
    {
      selectedSession := None;
    }

    /** The first stored session with that id, or none. */
    function GetSessionById(id: string): (r: Option<ClaudeSession>)
      reads this
      ensures r.None? <==> forall i :: 0 <= i < |sessions| ==> sessions[i].id != id
      ensures r.Some? ==> exists i :: (0 <= i < |sessions| && sessions[i] == r.value && r.value.id == id
                                        && forall j :: 0 <= j < i ==> sessions[j].id != id)
    {
      Find(sessions, IdIs(id))
    }

    /** The stored records of one session, in stored order. */
    function GetConversationsBySession(sessionId: string): (r: seq<Conversation>)
      reads this
      ensures IsSubseq(r, conversations)
      ensures forall i :: 0 <= i < |r| ==> r[i].sessionId == sessionId
      ensures forall i :: 0 <= i < |conversations| && conversations[i].sessionId == sessionId ==> conversations[i] in r
      ensures forall c :: multiset(r)[c] == if c.sessionId == sessionId then multiset(conversations)[c] else 0
    {
      FilterIsSubseq(conversations, SessionIs(sessionId));
      FilterMultisets(conversations, SessionIs(sessionId));
      FilterMembers(conversations, SessionIs(sessionId));
      Filter(conversations, SessionIs(sessionId))
    }

    /** The stored todos of one session, in stored order. */
    function GetTodosBySession(sessionId: string): (r: seq<TodoItem>)
      reads this
      ensures IsSubseq(r, todos)
      ensures forall i :: 0 <= i < |r| ==> r[i].sessionId == sessionId
      ensures forall i :: 0 <= i < |todos| && todos[i].sessionId == sessionId ==> todos[i] in r
      ensures forall t :: multiset(r)[t] == if t.sessionId == sessionId then multiset(todos)[t] else 0
    {
      FilterIsSubseq(todos, TodoSessionIs(sessionId));
      FilterMultisets(todos, TodoSessionIs(sessionId));
      FilterMembers(todos, TodoSessionIs(sessionId));
      Filter(todos, TodoSessionIs(sessionId))
    }

    method SetError(e: Option<string>)
      modifies this
      ensures error == e
      ensures sessions == old(sessions) && selectedSession == old(selectedSession)
      ensures conversations == old(conversations) && todos == old(todos) && isLoading == old(isLoading)
    {
      error := e;
    }
  }

  // ---------------------------------------------------------- properties

  /** Sessions whose records and todos carry their own id. */
  predicate Tagged(ss: seq<ClaudeSession>) {
    && (forall i, k :: 0 <= i < |ss| && 0 <= k < |ss[i].conversations| ==> ss[i].conversations[k].sessionId == ss[i].id)
    && (forall i, k :: 0 <= i < |ss| && 0 <= k < |ss[i].todos| ==> ss[i].todos[k].sessionId == ss[i].id)
  }

  /** Tagged sessions with no id used twice. */
  predicate TaggedDistinct(ss: seq<ClaudeSession>) {
    && (forall i, j :: 0 <= i < j < |ss| ==> ss[i].id != ss[j].id)
    && Tagged(ss)
  }

  lemma TaggedTail(ss: seq<ClaudeSession>)
    requires ss != [] && Tagged(ss)
    ensures Tagged(ss[1..])
  {
    forall i, k | 0 <= i < |ss[1..]| && 0 <= k < |ss[1..][i].conversations|
      ensures ss[1..][i].conversations[k].sessionId == ss[1..][i].id
    {
      assert ss[1..][i] == ss[i + 1];
    }
    forall i, k | 0 <= i < |ss[1..]| && 0 <= k < |ss[1..][i].todos|
      ensures ss[1..][i].todos[k].sessionId == ss[1..][i].id
    {
      assert ss[1..][i] == ss[i + 1];
    }
  }

  /**
   * For tagged sessions, even when ids repeat, the flattened records of one
   * id are the records of every session with that id, in order.
   */
  lemma {:induction false} FilterOwnConversations(ss: seq<ClaudeSession>, id: string)
    requires Tagged(ss)
    ensures Filter(FlatMap(ss, ConversationsOfSession), SessionIs(id))
      == FlatMap(Filter(ss, IdIs(id)), ConversationsOfSession)
  {
    if ss != [] {
      var s := ss[0];
      TaggedTail(ss);
      FilterOwnConversations(ss[1..], id);
      FilterConcat(s.conversations, FlatMap(ss[1..], ConversationsOfSession), SessionIs(id));
      assert FlatMap(ss, ConversationsOfSession) == s.conversations + FlatMap(ss[1..], ConversationsOfSession);
      var rest := Filter(ss[1..], IdIs(id));
      if s.id == id {
        assert Filter(ss, IdIs(id)) == [s] + rest;
        assert ([s] + rest)[0] == s && ([s] + rest)[1..] == rest;
        FilterAll(s.conversations, SessionIs(id));
      } else {
        forall x | x in s.conversations ensures !SessionIs(id)(x) {
          var k :| 0 <= k < |s.conversations| && s.conversations[k] == x;
          assert ss[0].conversations[k].sessionId == ss[0].id;
        }
        FilterNone(s.conversations, SessionIs(id));
        assert Filter(ss, IdIs(id)) == rest;
      }
    }
  }

  /** The same for todos: the flattened todos of one id are those of every session with that id. */
  lemma {:induction false} FilterOwnTodos(ss: seq<ClaudeSession>, id: string)
    requires Tagged(ss)
    ensures Filter(FlatMap(ss, TodosOfSession), TodoSessionIs(id))
      == FlatMap(Filter(ss, IdIs(id)), TodosOfSession)
  {
    if ss != [] {
      var s := ss[0];
      TaggedTail(ss);
      FilterOwnTodos(ss[1..], id);
      FilterConcat(s.todos, FlatMap(ss[1..], TodosOfSession), TodoSessionIs(id));
      assert FlatMap(ss, TodosOfSession) == s.todos + FlatMap(ss[1..], TodosOfSession);
      var rest := Filter(ss[1..], IdIs(id));
      if s.id == id {
        assert Filter(ss, IdIs(id)) == [s] + rest;
        assert ([s] + rest)[0] == s && ([s] + rest)[1..] == rest;
        FilterAll(s.todos, TodoSessionIs(id));
      } else {
        forall x | x in s.todos ensures !TodoSessionIs(id)(x) {
          var k :| 0 <= k < |s.todos| && s.todos[k] == x;
          assert ss[0].todos[k].sessionId == ss[0].id;
        }
        FilterNone(s.todos, TodoSessionIs(id));
        assert Filter(ss, IdIs(id)) == rest;
      }
    }
  }

  lemma {:induction false} NoOtherWithId(ss: seq<ClaudeSession>, k: nat)
    requires k < |ss| && forall i, j :: 0 <= i < j < |ss| ==> ss[i].id != ss[j].id
    ensures Filter(ss, IdIs(ss[k].id)) == [ss[k]]
  {
    if k == 0 {
      FilterNone(ss[1..], IdIs(ss[0].id));
    } else {
      NoOtherWithId(ss[1..], k - 1);
      assert ss[1..][k - 1] == ss[k];
    }
  }

  /**
   * When every session's records and todos carry its id and no id repeats,
   * looking a session's records or todos up by its id in the flattened
   * lists gives back exactly that session's own lists.
   */
  lemma LookupAfterSetSessions(ss: seq<ClaudeSession>, k: nat)
    requires k < |ss| && TaggedDistinct(ss)
    ensures Filter(FlatMap(ss, ConversationsOfSession), SessionIs(ss[k].id)) == ss[k].conversations
    ensures Filter(FlatMap(ss, TodosOfSession), TodoSessionIs(ss[k].id)) == ss[k].todos
  {
    FilterOwnConversations(ss, ss[k].id);
    FilterOwnTodos(ss, ss[k].id);
    NoOtherWithId(ss, k);
    assert [ss[k]][1..] == [];
  }
}
