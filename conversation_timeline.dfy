/**
 * The timeline's logic: the truncated message preview, and the filter
 * objects that the session effect, the search box and the three type
 * buttons hand to the conversation store. Each call replaces the store's
 * filters wholesale.
 */
module ConversationTimelineView {

  import opened Optional
  import opened Seqs
  import opened JsValues
  import opened ClaudeTypes
  import opened ConversationModel

  /** The `maxLength` used when the caller gives none. */
  const DEFAULT_PREVIEW_LENGTH: int := 200

  /**
   * `truncateContent`: the text when it is no longer than `maxLength`,
   * else `content.slice(0, maxLength) + "..."`; a negative end of `slice`
   * counts from the end of the text.
   */
  function TruncateContent(content: string, maxLength: int): (r: string)
    ensures |content| <= maxLength ==> r == content
    ensures 0 <= maxLength < |content| ==> |r| == maxLength + 3 && r[..maxLength] == content[..maxLength]
    ensures |content| > maxLength ==> |r| >= 3 && r[|r| - 3..] == "..." && r[..|r| - 3] <= content
  {
    if |content| <= maxLength then content
    else
      var end := SliceEnd(|content|, maxLength);
      var kept := content[..end];
      assert kept <= content;
      kept + "..."
  }

  /** Where `slice(0, end)` stops in a text of length `n`: a negative end counts from the end, clamped at 0. */
  function SliceEnd(n: nat, end: int): (e: nat)
    requires end < n
    ensures e <= n
    ensures end >= 0 ==> e == end
  {
    if end >= 0 then end else if n + end > 0 then n + end else 0
  }

  /** A preview never exceeds the limit plus the ellipsis, and a short text is never lengthened. */
  lemma TruncateBound(content: string, maxLength: nat)
    ensures |TruncateContent(content, maxLength)| <= if |content| <= maxLength then |content| else maxLength + 3
  {
  }

  /** The card body: a string message content, under the default limit. */
  function Preview(c: Conversation): Option<string> {
    if c.message.content.Str? then Some(TruncateContent(c.message.content.s, DEFAULT_PREVIEW_LENGTH)) else None
  }

  // ----------------------------------------------------------- filter calls

  /** The effect on a session change: `{ sessionId }`. */
  function SessionFilter(sessionId: string): (f: ConversationFilter)
    ensures f.sessionId == Some(sessionId)
    ensures f.kind.None? && f.dateRange.None? && f.searchTerm.None? && f.projectId.None?
  {
    NoFilters.(sessionId := Some(sessionId))
  }

  /** Typing in the search box: `{ sessionId, searchTerm }`: any type filter is dropped. */
  function SearchBoxFilter(sessionId: string, searchTerm: string): (f: ConversationFilter)
    ensures f.sessionId == Some(sessionId) && f.searchTerm == Some(searchTerm)
    ensures f.kind.None? && f.dateRange.None? && f.projectId.None?
  {
    ConversationFilter(None, None, Some(searchTerm), Some(sessionId), None)
  }

  /** The All, User and Assistant buttons: `{ sessionId, type }`: the search term is dropped. */
  function TypeButtonFilter(sessionId: string, kind: Option<string>): (f: ConversationFilter)
    ensures f.sessionId == Some(sessionId) && f.kind == kind
    ensures f.searchTerm.None? && f.dateRange.None? && f.projectId.None?
  {
    ConversationFilter(kind, None, None, Some(sessionId), None)
  }

  /**
   * With a session selected, the effect always succeeds: the filters become
   * exactly `{ sessionId }` and the list shows that session's records,
   * newest first.
   */
  method OnSessionChange(store: ConversationStore, selected: Option<ClaudeSession>)
    modifies store
    ensures selected.None? ==>
      (store.filters == old(store.filters) && store.filteredConversations == old(store.filteredConversations))
    ensures selected.Some? ==>
      (store.filters == SessionFilter(selected.value.id) &&
       store.filteredConversations
         == SortDesc(Filter(old(store.conversations), MatchesFilter(SessionFilter(selected.value.id))), Timestamp))
    ensures store.conversations == old(store.conversations)
    ensures store.selectedConversation == old(store.selectedConversation)
  {
    if selected.Some? {
      var f := SessionFilter(selected.value.id);
      NoSearchNoThrow(store.conversations, f);
      FilterResultSpec(store.conversations, f);
      var ok := store.ApplyFilters(f);
    }
  }

  /** The search box: the store's filters become `{ sessionId, searchTerm }` unless searching throws. */
  method OnSearchInput(store: ConversationStore, sessionId: string, searchTerm: string)
    modifies store
    ensures FilterResult(old(store.conversations), SearchBoxFilter(sessionId, searchTerm)).Some? ==>
      store.filters == SearchBoxFilter(sessionId, searchTerm) &&
      store.filteredConversations == FilterResult(old(store.conversations), SearchBoxFilter(sessionId, searchTerm)).value
    ensures FilterResult(old(store.conversations), SearchBoxFilter(sessionId, searchTerm)).None? ==>
      store.filters == old(store.filters) && store.filteredConversations == old(store.filteredConversations)
    ensures store.conversations == old(store.conversations)
    ensures store.selectedConversation == old(store.selectedConversation)
  {
    var ok := store.ApplyFilters(SearchBoxFilter(sessionId, searchTerm));
  }

  /**
   * A type button: the filters become `{ sessionId, type }` and the list
   * shows that session's records of that type (all of them for All), newest first.
   */
  method OnTypeButton(store: ConversationStore, sessionId: string, kind: Option<string>)
    modifies store
    ensures store.filters == TypeButtonFilter(sessionId, kind)
    ensures store.filteredConversations
      == SortDesc(Filter(old(store.conversations), MatchesFilter(TypeButtonFilter(sessionId, kind))), Timestamp)
    ensures store.conversations == old(store.conversations)
    ensures store.selectedConversation == old(store.selectedConversation)
  {
    var f := TypeButtonFilter(sessionId, kind);
    NoSearchNoThrow(store.conversations, f);
    FilterResultSpec(store.conversations, f);
    var ok := store.ApplyFilters(f);
  }

  /** The type buttons keep exactly the records of the session with that type (any type for All). */
  lemma TypeButtonMatches(sessionId: string, kind: Option<string>, c: Conversation)
    ensures Matches(TypeButtonFilter(sessionId, kind), c) <==>
      (sessionId != "" ==> c.sessionId == sessionId) && (kind.Some? && kind.value != "" ==> c.kind == Str(kind.value))
  {
  }

  /** Searching after pressing a type button forgets the type: only the session and the term still filter. */
  lemma SearchDropsType(sessionId: string, term: string, c: Conversation)
    ensures Matches(SearchBoxFilter(sessionId, term), c) <==>
      (sessionId != "" ==> c.sessionId == sessionId) && (term != "" ==> ContentMatches(c, term))
  {
  }
}
