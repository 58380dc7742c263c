/**
 * The conversation store: the loaded conversations, the subset the current
 * filters select (newest first), the filters themselves and the selection.
 *
 * Filtering runs five optional filters in a fixed order, then a stable sort
 * by timestamp, newest first. The search filter lower-cases each remaining
 * record's content; when that content is not a string the call throws, and
 * the store keeps whatever it had already stored at that point.
 */
module ConversationModel {

  import opened Optional
  import opened Seqs
  import opened Text
  import opened JsValues
  import opened ClaudeTypes

  // ------------------------------------------------------ filter stages

  function TypeIs(kind: string): Conversation -> bool {
    (c: Conversation) => c.kind == Str(kind)
  }

  function InRange(range: DateRange): Conversation -> bool {
    (c: Conversation) => range.start <= c.timestamp <= range.end
  }

  /** The lower-cased content contains the lower-cased term; only string content can. */
  predicate ContentMatches(c: Conversation, term: string) {
    c.message.content.Str? && Includes(ToLower(c.message.content.s), ToLower(term))
  }

  function ContentMatchesTerm(term: string): Conversation -> bool {
    (c: Conversation) => ContentMatches(c, term)
  }

  /** The search callback on one record: None when `content.toLowerCase` throws. */
  function SearchStep(term: string): Conversation -> Option<seq<Conversation>> {
    (c: Conversation) => if c.message.content.Str? then Some(if ContentMatches(c, term) then [c] else []) else None
  }

  function SessionIs(sessionId: string): Conversation -> bool {
    (c: Conversation) => c.sessionId == sessionId
  }

  function SessionIdContains(projectId: string): Conversation -> bool {
    (c: Conversation) => Includes(c.sessionId, projectId)
  }

  function Timestamp(c: Conversation): int {
    c.timestamp
  }

  /** The records left after the type and date-range stages. */
  function BeforeSearch(convs: seq<Conversation>, f: ConversationFilter): seq<Conversation> {
    var byKind := if Active(f.kind) then Filter(convs, TypeIs(f.kind.value)) else convs;
    if f.dateRange.Some? then Filter(byKind, InRange(f.dateRange.value)) else byKind
  }

  /** The search stage; None when it throws. */
  function Search(convs: seq<Conversation>, f: ConversationFilter): Option<seq<Conversation>> {
    if Active(f.searchTerm) then CollectAll(convs, SearchStep(f.searchTerm.value)) else Some(convs)
  }

  /** The session-id and project-id stages. */
  function AfterSearch(convs: seq<Conversation>, f: ConversationFilter): seq<Conversation> {
    var bySession := if Active(f.sessionId) then Filter(convs, SessionIs(f.sessionId.value)) else convs;
    if Active(f.projectId) then Filter(bySession, SessionIdContains(f.projectId.value)) else bySession
  }

  /** The whole filter pipeline and the sort; None when the search stage throws. */
  function FilterResult(convs: seq<Conversation>, f: ConversationFilter): Option<seq<Conversation>> {
    match Search(BeforeSearch(convs, f), f)
    case None => None
    case Some(found) => Some(SortDesc(AfterSearch(found, f), Timestamp))
  }

  /** A record satisfies every filter that is set. */
  predicate Matches(f: ConversationFilter, c: Conversation) {
    && (Active(f.kind) ==> c.kind == Str(f.kind.value))
    && (f.dateRange.Some? ==> f.dateRange.value.start <= c.timestamp <= f.dateRange.value.end)
    && (Active(f.searchTerm) ==> ContentMatches(c, f.searchTerm.value))
    && (Active(f.sessionId) ==> c.sessionId == f.sessionId.value)
    && (Active(f.projectId) ==> Includes(c.sessionId, f.projectId.value))
  }

  function MatchesFilter(f: ConversationFilter): Conversation -> bool {
    (c: Conversation) => Matches(f, c)
  }

  // -------------------------------------------------------------- store

  class ConversationStore {
    var conversations: seq<Conversation>
    var filteredConversations: seq<Conversation>
    var selectedConversation: Option<Conversation>
    var filters: ConversationFilter
    var isLoading: bool
    var error: Option<string>

    /** The store's initial state. */
    constructor ()
      ensures conversations == [] && filteredConversations == [] && selectedConversation == None
      ensures filters == NoFilters && !isLoading && error == None
    {
      conversations := [];
      filteredConversations := [];
      selectedConversation := None;
      filters := NoFilters;
      isLoading := false;
      error := None;
    }

    /** The search callback run over `convs` in order; the first non-string content throws. */
    static method SearchFilter(convs: seq<Conversation>, term: string) returns (r: Option<seq<Conversation>>)
      ensures r == CollectAll(convs, SearchStep(term))
    {
      var kept: seq<Conversation> := [];
      var i := 0;
      while i < |convs|
        invariant 0 <= i <= |convs|
        invariant CollectAll(convs[..i], SearchStep(term)) == Some(kept)
      {
        assert convs[..i + 1][..i] == convs[..i];
        var conv := convs[i];
        if !conv.message.content.Str? {
          CollectAllFailedPrefix(convs, SearchStep(term), i + 1);
          return None;
        }
        if Includes(ToLower(conv.message.content.s), ToLower(term)) {
          kept := kept + [conv];
        } else {
          assert kept + [] == kept;
        }
        i := i + 1;
      }
      assert convs[..i] == convs;
      r := Some(kept);
    }

    /** The filter pipeline of the store, stage by stage. */
    static method RunFilters(convs: seq<Conversation>, f: ConversationFilter) returns (r: Option<seq<Conversation>>)
      ensures r == FilterResult(convs, f)
    {
      var filtered := convs;
      if Active(f.kind) {
        filtered := Filter(filtered, TypeIs(f.kind.value));
      }
      if f.dateRange.Some? {
        filtered := Filter(filtered, InRange(f.dateRange.value));
      }
      assert filtered == BeforeSearch(convs, f);
      if Active(f.searchTerm) {
        var found := SearchFilter(filtered, f.searchTerm.value);
        if found.None? {
          return None;
        }
        filtered := found.value;
      }
      if Active(f.sessionId) {
        filtered := Filter(filtered, SessionIs(f.sessionId.value));
      }
      if Active(f.projectId) {
        filtered := Filter(filtered, SessionIdContains(f.projectId.value));
      }
      filtered := SortDesc(filtered, Timestamp);
      r := Some(filtered);
    }

    /**
     * Stores the conversations first, then recomputes the filtered list with
     * the stored filters; `ok` is false when the search throws, and then
     * the filtered list is left as it was.
     */
    method SetConversations(convs: seq<Conversation>) returns (ok: bool)
      modifies this
      ensures conversations == convs
      ensures ok == FilterResult(convs, old(filters)).Some?
      ensures filteredConversations == FilterResult(convs, old(filters)).GetOr(old(filteredConversations))
      ensures filters == old(filters) && selectedConversation == old(selectedConversation)
      ensures isLoading == old(isLoading) && error == old(error)
    {
      conversations := convs;
      var filtered := RunFilters(convs, filters);
      if filtered.None? {
        return false;
      }
      filteredConversations := filtered.value;
      ok := true;
    }

    method SelectConversation(c: Conversation)
      modifies this
      ensures selectedConversation == Some(c)
      ensures conversations == old(conversations) && filteredConversations == old(filteredConversations)
      ensures filters == old(filters) && isLoading == old(isLoading) && error == old(error)
    {
      selectedConversation := Some(c);
    }

    method ClearSelection()
      modifies this
      ensures selectedConversation == None
      ensures conversations == old(conversations) && filteredConversations == old(filteredConversations)
      ensures filters == old(filters) && isLoading == old(isLoading) && error == old(error)
    {
      selectedConversation := None;
    }

    /**
     * Filters the stored conversations with `f` and replaces the filters by
     * `f`; when the search throws nothing changes and `ok` is false.
     */
    method ApplyFilters(f: ConversationFilter) returns (ok: bool)
      modifies this
      ensures ok == FilterResult(old(conversations), f).Some?
      ensures ok ==> filters == f && filteredConversations == FilterResult(old(conversations), f).value
      ensures !ok ==> filters == old(filters) && filteredConversations == old(filteredConversations)
      ensures conversations == old(conversations) && selectedConversation == old(selectedConversation)
      ensures isLoading == old(isLoading) && error == old(error)
    {
      var filtered := RunFilters(conversations, f);
      if filtered.None? {
        return false;
      }
      filters := f;
      filteredConversations := filtered.value;
      ok := true;
    }

    /** Drops every filter and shows the stored conversations as they are, unsorted. */
    method ClearFilters()
      modifies this
      ensures filters == NoFilters && filteredConversations == conversations
      ensures conversations == old(conversations) && selectedConversation == old(selectedConversation)
      ensures isLoading == old(isLoading) && error == old(error)
    {
      filters := NoFilters;
      filteredConversations := conversations;
    }

    /** Applies the current filters with the search term replaced by `term`. */
    method SearchConversations(term: string) returns (ok: bool)
      modifies this
      ensures var f := old(filters).(searchTerm := Some(term));
        && ok == FilterResult(old(conversations), f).Some?
        && (ok ==> filters == f && filteredConversations == FilterResult(old(conversations), f).value)
        && (!ok ==> filters == old(filters) && filteredConversations == old(filteredConversations))
      ensures conversations == old(conversations) && selectedConversation == old(selectedConversation)
      ensures isLoading == old(isLoading) && error == old(error)
    {
      var currentFilters := filters;
      ok := ApplyFilters(currentFilters.(searchTerm := Some(term)));
    }

    /** The stored records of one type, in stored order. */
    function GetConversationsByType(kind: string): (r: seq<Conversation>)
      reads this
      ensures IsSubseq(r, conversations)
      ensures forall i :: 0 <= i < |r| ==> r[i].kind == Str(kind)
      ensures forall i :: 0 <= i < |conversations| && conversations[i].kind == Str(kind) ==> conversations[i] in r
      ensures forall c :: multiset(r)[c] == if c.kind == Str(kind) then multiset(conversations)[c] else 0
    {
      FilterIsSubseq(conversations, TypeIs(kind));
      FilterMultisets(conversations, TypeIs(kind));
      FilterMembers(conversations, TypeIs(kind));
      Filter(conversations, TypeIs(kind))
    }

    /** The stored records of one session, in stored order. */
    function GetConversationsBySession(sessionId: string): (r: seq<Conversation>)
      reads this
      ensures IsSubseq(r, conversations)
      ensures forall i :: 0 <= i < |r| ==> r[i].sessionId == sessionId
      ensures forall i :: 0 <= i < |conversations| && conversations[i].sessionId == sessionId ==> conversations[i] in r
      ensures forall c :: multiset(r)[c] == if c.sessionId == sessionId then multiset(conversations)[c] else 0
    {
      FilterIsSubseq(conversations, SessionIs(sessionId));
      FilterMultisets(conversations, SessionIs(sessionId));
      FilterMembers(conversations, SessionIs(sessionId));
      Filter(conversations, SessionIs(sessionId))
    }

    method SetError(e: Option<string>)
      modifies this
      ensures error == e
      ensures conversations == old(conversations) && filteredConversations == old(filteredConversations)
      ensures filters == old(filters) && selectedConversation == old(selectedConversation) && isLoading == old(isLoading)
    {
      error := e;
    }
  }

  // ---------------------------------------------------------- properties

  // The conjunction of the first `k` filter conditions, for the stage-by-stage proof.

  function UpToType(f: ConversationFilter): Conversation -> bool {
    (c: Conversation) => Active(f.kind) ==> c.kind == Str(f.kind.value)
  }

  function UpToRange(f: ConversationFilter): Conversation -> bool {
    (c: Conversation) => UpToType(f)(c)
      && (f.dateRange.Some? ==> f.dateRange.value.start <= c.timestamp <= f.dateRange.value.end)
  }

  function UpToSearch(f: ConversationFilter): Conversation -> bool {
    (c: Conversation) => UpToRange(f)(c) && (Active(f.searchTerm) ==> ContentMatches(c, f.searchTerm.value))
  }

  function UpToSession(f: ConversationFilter): Conversation -> bool {
    (c: Conversation) => UpToSearch(f)(c) && (Active(f.sessionId) ==> c.sessionId == f.sessionId.value)
  }

  lemma BeforeSearchStages(convs: seq<Conversation>, f: ConversationFilter)
    ensures BeforeSearch(convs, f) == Filter(convs, UpToRange(f))
  {
    if Active(f.kind) {
      FilterCongruent(convs, TypeIs(f.kind.value), UpToType(f));
    } else {
      FilterAll(convs, UpToType(f));
    }
    if f.dateRange.Some? {
      FilterFilter(convs, UpToType(f), InRange(f.dateRange.value), UpToRange(f));
    } else {
      FilterCongruent(convs, UpToType(f), UpToRange(f));
    }
  }

  lemma SearchStage(convs: seq<Conversation>, f: ConversationFilter)
    requires Search(Filter(convs, UpToRange(f)), f).Some?
    ensures Search(Filter(convs, UpToRange(f)), f).value == Filter(convs, UpToSearch(f))
  {
    var s2 := Filter(convs, UpToRange(f));
    if Active(f.searchTerm) {
      CollectAllKeep(s2, SearchStep(f.searchTerm.value), ContentMatchesTerm(f.searchTerm.value));
      FilterFilter(convs, UpToRange(f), ContentMatchesTerm(f.searchTerm.value), UpToSearch(f));
    } else {
      FilterCongruent(convs, UpToRange(f), UpToSearch(f));
    }
  }

  lemma AfterSearchStages(convs: seq<Conversation>, f: ConversationFilter)
    ensures AfterSearch(Filter(convs, UpToSearch(f)), f) == Filter(convs, MatchesFilter(f))
  {
    var s3 := Filter(convs, UpToSearch(f));
    if Active(f.sessionId) {
      FilterFilter(convs, UpToSearch(f), SessionIs(f.sessionId.value), UpToSession(f));
    } else {
      FilterCongruent(convs, UpToSearch(f), UpToSession(f));
    }
    forall c ensures MatchesFilter(f)(c) == (UpToSession(f)(c) && (Active(f.projectId) ==> Includes(c.sessionId, f.projectId.value))) {
      assert UpToRange(f)(c) == (UpToType(f)(c)
        && (f.dateRange.Some? ==> f.dateRange.value.start <= c.timestamp <= f.dateRange.value.end));
      assert UpToSearch(f)(c) == (UpToRange(f)(c) && (Active(f.searchTerm) ==> ContentMatches(c, f.searchTerm.value)));
    }
    if Active(f.projectId) {
      FilterFilter(convs, UpToSession(f), SessionIdContains(f.projectId.value), MatchesFilter(f));
    } else {
      FilterCongruent(convs, UpToSession(f), MatchesFilter(f));
    }
  }

  /**
   * The pipeline selects exactly the records that satisfy every set filter
   * and orders them newest first: it is the stable sort of that sublist.
   */
  lemma FilterResultSpec(convs: seq<Conversation>, f: ConversationFilter)
    ensures FilterResult(convs, f).Some? ==>
      FilterResult(convs, f).value == SortDesc(Filter(convs, MatchesFilter(f)), Timestamp)
  {
    BeforeSearchStages(convs, f);
    if FilterResult(convs, f).Some? {
      SearchStage(convs, f);
      AfterSearchStages(convs, f);
    }
  }

  /**
   * The pipeline throws exactly when a search term is set and some record
   * that passes the type and date-range stages has non-string content.
   */
  lemma FilterResultThrows(convs: seq<Conversation>, f: ConversationFilter)
    ensures FilterResult(convs, f).None? <==>
      Active(f.searchTerm) &&
      exists i :: 0 <= i < |BeforeSearch(convs, f)| && !BeforeSearch(convs, f)[i].message.content.Str?
  {
    if Active(f.searchTerm) {
      CollectAllFails(BeforeSearch(convs, f), SearchStep(f.searchTerm.value));
    }
  }

  /** Soundness, completeness, order and permutation of the filtered list. */
  lemma FilteredListProperties(convs: seq<Conversation>, f: ConversationFilter)
    requires FilterResult(convs, f).Some?
    ensures var r := FilterResult(convs, f).value;
      && (forall i :: 0 <= i < |r| ==> r[i] in convs && Matches(f, r[i]))
      && (forall i :: 0 <= i < |convs| && Matches(f, convs[i]) ==> convs[i] in r)
      && multiset(r) == multiset(Filter(convs, MatchesFilter(f)))
      && SortedDesc(r, Timestamp)
  {
    FilterResultSpec(convs, f);
    var kept := Filter(convs, MatchesFilter(f));
    SortDescSorted(kept, Timestamp);
    FilterMembers(convs, MatchesFilter(f));
    var r := FilterResult(convs, f).value;
    forall i | 0 <= i < |r| ensures r[i] in convs && Matches(f, r[i]) {
      assert r[i] in multiset(kept);
    }
    forall i | 0 <= i < |convs| && Matches(f, convs[i]) ensures convs[i] in r {
      assert convs[i] in kept;
      assert convs[i] in multiset(r);
    }
  }

  /** Records with the same timestamp keep their stored order. */
  lemma FilteredListStable(convs: seq<Conversation>, f: ConversationFilter, sameTime: Conversation -> bool, t: int)
    requires forall c :: sameTime(c) == (c.timestamp == t)
    requires FilterResult(convs, f).Some?
    ensures Filter(FilterResult(convs, f).value, sameTime) == Filter(Filter(convs, MatchesFilter(f)), sameTime)
  {
    FilterResultSpec(convs, f);
    SortDescStable(Filter(convs, MatchesFilter(f)), Timestamp, sameTime, t);
  }

  /** Without a search term nothing throws. */
  lemma NoSearchNoThrow(convs: seq<Conversation>, f: ConversationFilter)
    requires !Active(f.searchTerm)
    ensures FilterResult(convs, f).Some?
  {
  }
}
