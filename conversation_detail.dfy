/**
 * The pure logic of the record detail dialog: the text shown for a record,
 * the set of expanded tool panels, and the task plan read from an
 * assistant's text by two multi-line regular expressions,
 * `^\d+\.\s+(.+)$` and, only when that finds nothing, `^[-*]\s+(.+)$`.
 *
 * The regular expressions are modelled by their matching semantics: a match
 * may start only at the start of a line; `\d+`, `\s+` and `.+` are greedy and
 * give back characters only when what follows fails; `\s` also matches line
 * terminators and `.` does not; `$` holds at a line terminator or at the end.
 * `JSON.stringify(v, null, 2)` is a parameter, `pretty`.
 */
module ConversationDetail {

  import opened Optional
  import opened Text
  import opened JsValues
  import opened ClaudeTypes

  // ----------------------------------------------------------- content text

  /**
   * `getContentText`: a string is shown as it is (even when empty), an array
   * or object as indented JSON, and anything else through `String`, with a
   * falsy value replaced by "No content".
   */
  function ContentText(content: JsValue, pretty: JsValue -> string): (r: string)
    ensures content.Str? ==> r == content.s
    ensures IsObject(content) ==> r == pretty(content)
    ensures !content.Str? && !IsObject(content) && !Truthy(content) ==> r == "No content"
    ensures content.Num? && content.n != 0 ==> r == IntToString(content.n)
    ensures content == Bool(true) ==> r == "true"
  {
    if content.Str? then content.s
    else if Truthy(content) && IsObject(content) then pretty(content)
    else ToStr(Or(content, Str("No content")))
  }

  /** The text is empty only for an empty string, or for JSON that `pretty` renders empty. */
  lemma ContentTextEmpty(content: JsValue, pretty: JsValue -> string)
    requires ContentText(content, pretty) == ""
    ensures content == Str("") || (IsObject(content) && pretty(content) == "")
  {
  }

  /** The text of a record: its message's content, or the whole message when the content is falsy. */
  function DetailText(c: Conversation, pretty: JsValue -> string): (r: string)
    ensures Truthy(c.message.content) ==> r == ContentText(c.message.content, pretty)
    ensures !Truthy(c.message.content) ==> r == pretty(MessageValue(c.message))
  {
    ContentText(Or(c.message.content, MessageValue(c.message)), pretty)
  }

  /** `v[0]`; `None` when the access throws on `null` or `undefined`. */
  function Index0(v: JsValue): (r: Option<JsValue>)
    ensures r.None? <==> IsNullish(v)
  {
    match v
    case Undefined => None
    case Null => None
    case Str(s) => Some(if s != "" then Str([s[0]]) else Undefined)
    case Arr(items) => Some(if items != [] then items[0] else Undefined)
    case Obj(m) => Some(if "0" in m then m["0"] else Undefined)
    case _ => Some(Undefined)
  }

  /**
   * The value handed to the content panel, `message?.content[0].text ||
   * message`; `None` when the expression throws.
   */
  function DetailBody(c: Conversation): Option<JsValue> {
    match Index0(c.message.content)
    case None => None
    case Some(first) =>
      match Member(first, "text")
      case None => None
      case Some(text) => Some(Or(text, MessageValue(c.message)))
  }

  /**
   * The panel's value throws exactly when the content has no first element
   * (or a nullish one); a string content never yields its own text: the
   * panel then holds the whole message object.
   */
  lemma DetailBodyCases(c: Conversation)
    ensures DetailBody(c).None? <==>
      (IsNullish(c.message.content) || IsNullish(Index0(c.message.content).value))
    ensures c.message.content.Str? && c.message.content.s != "" ==> DetailBody(c) == Some(MessageValue(c.message))
    ensures c.message.content == Str("") ==> DetailBody(c).None?
    ensures (c.message.content.Arr? && c.message.content.items != [] && c.message.content.items[0].Obj?
             && "text" in c.message.content.items[0].fields
             && Truthy(c.message.content.items[0].fields["text"]))
            ==> DetailBody(c) == Some(c.message.content.items[0].fields["text"])
  {
  }

  // --------------------------------------------------------- tool panels

  /** `toggleToolExpansion`: a copy of the set with `index`'s membership flipped. */
  function Toggle(expanded: set<int>, index: int): (r: set<int>)
    ensures index in r <==> index !in expanded
    ensures forall j :: j != index ==> (j in r <==> j in expanded)
  {
    if index in expanded then expanded - {index} else expanded + {index}
  }

  /** Toggling the same panel twice restores the set. */
  lemma ToggleTwice(expanded: set<int>, index: int)
    ensures Toggle(Toggle(expanded, index), index) == expanded
  {
    var once := Toggle(expanded, index);
    var twice := Toggle(once, index);
    assert forall j :: j in twice <==> j in expanded;
  }

  /** Toggles of different panels commute. */
  lemma ToggleCommutes(expanded: set<int>, i: int, j: int)
    ensures Toggle(Toggle(expanded, i), j) == Toggle(Toggle(expanded, j), i)
  {
    var a := Toggle(Toggle(expanded, i), j);
    var b := Toggle(Toggle(expanded, j), i);
    assert forall k :: k in a <==> k in b;
  }

  // ------------------------------------------------------------ task plan

  datatype ListStyle = Numbered | Bulleted

  /** One regular-expression match: it starts at `start`; group 1 is `s[capStart..end]`. */
  datatype Match = Match(start: nat, capStart: nat, end: nat)

  predicate NotLineTerminator(c: char) {
    !IsLineTerminator(c)
  }

  /** `^` in multi-line mode: the start of the text or just after a line terminator. */
  predicate LineStart(s: string, p: nat) {
    p == 0 || (p <= |s| && IsLineTerminator(s[p - 1]))
  }

  /** The end of the longest run of characters satisfying `p` from `i` on. */
  function RunEnd(s: string, i: nat, p: char -> bool): (j: nat)
    requires i <= |s|
    ensures i <= j <= |s|
    ensures forall k :: i <= k < j ==> p(s[k])
    ensures j == |s| || !p(s[j])
    decreases |s| - i
  {
    if i == |s| || !p(s[i]) then i else RunEnd(s, i + 1, p)
  }

  /** The run reaches at least as far as any stretch of characters satisfying `p`. */
  lemma {:induction false} RunEndCovers(s: string, i: nat, j: nat, p: char -> bool)
    requires i <= j <= |s| && forall k :: i <= k < j ==> p(s[k])
    ensures j <= RunEnd(s, i, p)
    decreases j - i
  {
    if i < j {
      RunEndCovers(s, i + 1, j, p);
    }
  }

  /** Where `\s+` starts: after `\d+\.` or after `[-*]`. */
  function MarkerEnd(s: string, p: nat, style: ListStyle): (r: Option<nat>)
    requires p < |s|
    ensures r.Some? ==> p < r.value <= |s|
  {
    match style
    case Numbered =>
      var d := RunEnd(s, p, IsDigit);
      if p < d < |s| && s[d] == '.' then Some(d + 1) else None
    case Bulleted =>
      if s[p] == '-' || s[p] == '*' then Some(p + 1) else None
  }

  /** The largest `k` with `lo < k <= hi` and `s[k]` not a line terminator, or -1. */
  function LastTextStart(s: string, lo: nat, hi: nat): (k: int)
    requires hi < |s|
    ensures k == -1 || (lo < k <= hi && !IsLineTerminator(s[k]))
    ensures forall j :: k < j <= hi && lo < j ==> IsLineTerminator(s[j])
    decreases hi
  {
    if hi <= lo then -1
    else if !IsLineTerminator(s[hi]) then hi
    else LastTextStart(s, lo, hi - 1)
  }

  /**
   * The match of the pattern at `p`, as the backtracking matcher finds it:
   * `\s+` takes all the white space it can, and gives back only as much as
   * `.+` needs to match one character that is not a line terminator; `.+`
   * then runs to the end of that line.
   */
  function MatchAt(s: string, p: nat, style: ListStyle): (r: Option<Match>)
    ensures r.Some? ==> r.value.start == p < r.value.capStart < r.value.end <= |s|
    ensures r.Some? ==> AllSatisfy(s, r.value.capStart, r.value.end, NotLineTerminator)
  {
    if p >= |s| || !LineStart(s, p) then None
    else
      match MarkerEnd(s, p, style)
      case None => None
      case Some(w) =>
        if w == |s| then None
        else
          var w1 := RunEnd(s, w, IsWhitespace);
          var b := LastTextStart(s, w, if w1 < |s| then w1 else |s| - 1);
          if b < 0 then None
          else Some(Match(p, b, RunEnd(s, b, NotLineTerminator)))
  }

  predicate AllSatisfy(s: string, i: nat, j: nat, p: char -> bool)
    requires i <= j <= |s|
  {
    forall k :: i <= k < j ==> p(s[k])
  }

  /** `s[p..w]` is the marker: `\d+\.` or `[-*]`. */
  predicate ValidMarker(s: string, p: nat, w: nat, style: ListStyle) {
    p < w <= |s| &&
    match style
    case Numbered => p + 1 < w && AllSatisfy(s, p, w - 1, IsDigit) && s[w - 1] == '.'
    case Bulleted => w == p + 1 && (s[p] == '-' || s[p] == '*')
  }

  /**
   * One way for the pattern to match at `p`, independently of search order:
   * the marker `s[p..w]`, the white space `s[w..b]`, group 1 `s[b..c]`, then
   * the end of a line.
   */
  predicate ValidMatch(s: string, p: nat, style: ListStyle, w: nat, b: nat, c: nat) {
    && LineStart(s, p)
    && ValidMarker(s, p, w, style)
    && w < b < c <= |s|
    && AllSatisfy(s, w, b, IsWhitespace)
    && AllSatisfy(s, b, c, NotLineTerminator)
    && (c == |s| || IsLineTerminator(s[c]))
  }

  /** The marker is determined by its start: the digit run cannot end anywhere but at the first non-digit. */
  lemma MarkerUnique(s: string, p: nat, w: nat, style: ListStyle)
    requires ValidMarker(s, p, w, style)
    ensures MarkerEnd(s, p, style) == Some(w)
  {
  }

  /**
   * `MatchAt` is the match a backtracking matcher reports: one of the valid
   * ways to match, and among them the one with the longest white space and
   * then the longest group; and there is no match when there is no valid way.
   */
  lemma MatchAtIsPreferredMatch(s: string, p: nat, style: ListStyle)
    ensures MatchAt(s, p, style).Some? ==>
      exists w :: ValidMatch(s, p, style, w, MatchAt(s, p, style).value.capStart, MatchAt(s, p, style).value.end)
    ensures forall w: nat, b: nat, c: nat :: ValidMatch(s, p, style, w, b, c) ==>
      (MatchAt(s, p, style).Some? &&
       (b < MatchAt(s, p, style).value.capStart ||
        (b == MatchAt(s, p, style).value.capStart && c <= MatchAt(s, p, style).value.end)))
  {
    if MatchAt(s, p, style).Some? {
      MatchAtIsValid(s, p, style);
    }
    forall w: nat, b: nat, c: nat | ValidMatch(s, p, style, w, b, c)
      ensures MatchAt(s, p, style).Some? &&
        (b < MatchAt(s, p, style).value.capStart ||
         (b == MatchAt(s, p, style).value.capStart && c <= MatchAt(s, p, style).value.end))
    {
      MatchAtIsPreferred(s, p, style, w, b, c);
    }
  }

  /** The match `MatchAt` reports is a valid way to match, with the marker `MarkerEnd` finds. */
  lemma MatchAtIsValid(s: string, p: nat, style: ListStyle)
    requires MatchAt(s, p, style).Some?
    ensures p < |s| && MarkerEnd(s, p, style).Some?
    ensures ValidMatch(s, p, style, MarkerEnd(s, p, style).value,
                       MatchAt(s, p, style).value.capStart, MatchAt(s, p, style).value.end)
  {
    var w := MarkerEnd(s, p, style).value;
    var b, c := MatchAt(s, p, style).value.capStart, MatchAt(s, p, style).value.end;
    assert ValidMarker(s, p, w, style) by {
      if style == Numbered {
        assert AllSatisfy(s, p, w - 1, IsDigit);
      }
    }
    assert AllSatisfy(s, w, b, IsWhitespace);
  }

  /** No valid way to match at `p` has longer white space, or the same white space and a longer group, than `MatchAt`'s. */
  lemma MatchAtIsPreferred(s: string, p: nat, style: ListStyle, w: nat, b: nat, c: nat)
    requires ValidMatch(s, p, style, w, b, c)
    ensures MatchAt(s, p, style).Some?
    ensures b < MatchAt(s, p, style).value.capStart ||
      (b == MatchAt(s, p, style).value.capStart && c <= MatchAt(s, p, style).value.end)
  {
    MarkerUnique(s, p, w, style);
    var w1 := RunEnd(s, w, IsWhitespace);
    RunEndCovers(s, w, b, IsWhitespace);
    var hi := if w1 < |s| then w1 else |s| - 1;
    assert !IsLineTerminator(s[b]);
    var k := LastTextStart(s, w, hi);
    assert k >= b;
    if k == b {
      RunEndCovers(s, b, c, NotLineTerminator);
    }
  }

  /** `exec` with `lastIndex == from`: the first match that starts at or after `from`. */
  function Exec(s: string, from: nat, style: ListStyle): (r: Option<Match>)
    ensures r.Some? ==> from <= r.value.start < r.value.capStart < r.value.end <= |s|
    ensures r.Some? ==> AllSatisfy(s, r.value.capStart, r.value.end, NotLineTerminator)
    decreases |s| - from
  {
    if from >= |s| then None
    else
      match MatchAt(s, from, style)
      case Some(m) => Some(m)
      case None => Exec(s, from + 1, style)
  }

  /** What `exec` reports is the match at the position where it starts. */
  lemma {:induction false} ExecIsMatchAt(s: string, from: nat, style: ListStyle)
    requires Exec(s, from, style).Some?
    ensures MatchAt(s, Exec(s, from, style).value.start, style) == Exec(s, from, style)
    decreases |s| - from
  {
    if MatchAt(s, from, style).None? {
      ExecIsMatchAt(s, from + 1, style);
    }
  }

  /** `exec` skips no match: none starts between `from` and the one it reports, nor after `from` when it reports none. */
  lemma {:induction false} ExecFindsFirst(s: string, from: nat, style: ListStyle, q: nat)
    requires from <= q
    requires Exec(s, from, style).Some? ==> q < Exec(s, from, style).value.start
    ensures MatchAt(s, q, style).None?
    decreases |s| - from
  {
    if q < |s| && from < q {
      if MatchAt(s, from, style).None? {
        ExecStep(s, from, style);
        ExecFindsFirst(s, from + 1, style, q);
      } else {
        ExecAtMatch(s, from, style);
      }
    } else if q < |s| && MatchAt(s, q, style).Some? {
      ExecAtMatch(s, q, style);
    }
  }

  /** A search that starts where a match starts reports that match. */
  lemma ExecAtMatch(s: string, from: nat, style: ListStyle)
    requires MatchAt(s, from, style).Some?
    ensures Exec(s, from, style).Some? && Exec(s, from, style).value.start == from
  {
  }

  /** One step of `exec`: the match at `from` when there is one, else the search from the next position. */
  lemma ExecStep(s: string, from: nat, style: ListStyle)
    requires from < |s|
    ensures MatchAt(s, from, style).Some? ==> Exec(s, from, style) == MatchAt(s, from, style)
    ensures MatchAt(s, from, style).None? ==> Exec(s, from, style) == Exec(s, from + 1, style)
  {
  }

  /** Group 1 of every match from `from` on, as the `while (exec)` loop pushes them. */
  function ScanFrom(s: string, from: nat, style: ListStyle): (r: seq<string>)
    ensures forall i :: 0 <= i < |r| ==> r[i] != []
    ensures forall i, k :: 0 <= i < |r| && 0 <= k < |r[i]| ==> !IsLineTerminator(r[i][k])
    decreases |s| - from
  {
    match Exec(s, from, style)
    case None => []
    case Some(m) =>
      var item := s[m.capStart..m.end];
      assert forall k :: 0 <= k < |item| ==> item[k] == s[m.capStart + k];
      [item] + ScanFrom(s, m.end, style)
  }

  /** `extractTaskPlan`: the numbered items, or the bulleted ones when there are none. */
  function TaskPlan(s: string): seq<string> {
    var numbered := ScanFrom(s, 0, Numbered);
    if numbered != [] then numbered else ScanFrom(s, 0, Bulleted)
  }

  /** One `while ((match = pattern.exec(content)) !== null)` loop: group 1 of every match, in order. */
  method CollectMatches(content: string, style: ListStyle) returns (found: seq<string>)
    ensures found == ScanFrom(content, 0, style)
  {
    found := [];
    var lastIndex := 0;
    var m := Exec(content, lastIndex, style);
    while m.Some?
      invariant lastIndex <= |content|
      invariant m == Exec(content, lastIndex, style)
      invariant found + ScanFrom(content, lastIndex, style) == ScanFrom(content, 0, style)
      decreases |content| - lastIndex
    {
      var item, next := content[m.value.capStart..m.value.end], m.value.end;
      ScanStep(content, lastIndex, style);
      AppendAssoc(found, item, ScanFrom(content, next, style));
      found := found + [item];
      lastIndex := next;
      m := Exec(content, lastIndex, style);
    }
  }

  /** One step of the scan: the reported match's group, then the scan from where the match ends. */
  lemma ScanStep(s: string, from: nat, style: ListStyle)
    requires Exec(s, from, style).Some?
    ensures Exec(s, from, style).value.end <= |s|
    ensures from < Exec(s, from, style).value.end
    ensures ScanFrom(s, from, style) ==
      [s[Exec(s, from, style).value.capStart..Exec(s, from, style).value.end]] + ScanFrom(s, Exec(s, from, style).value.end, style)
  {
  }

  /** Pushing an item then appending the rest is appending the item and the rest. */
  lemma AppendAssoc(found: seq<string>, item: string, rest: seq<string>)
    ensures (found + [item]) + rest == found + ([item] + rest)
  {
  }

  /** `extractTaskPlan`: the dash list is searched only when no numbered item was found. */
  method ExtractTaskPlan(content: string) returns (tasks: seq<string>)
    ensures tasks == TaskPlan(content)
  {
    tasks := CollectMatches(content, Numbered);
    if |tasks| == 0 {
      tasks := CollectMatches(content, Bulleted);
    }
  }

  /** The task plan of a record: only assistant records have one. */
  function TaskPlanFor(c: Conversation, pretty: JsValue -> string): (r: seq<string>)
    ensures c.kind != Str("assistant") ==> r == []
    ensures c.kind == Str("assistant") ==> r == TaskPlan(DetailText(c, pretty))
  {
    if c.kind == Str("assistant") then TaskPlan(DetailText(c, pretty)) else []
  }

  /**
   * The plan never mixes the two styles: it is the numbered items, or, when
   * there are none, the bulleted items; every item is one non-empty line.
   */
  lemma TaskPlanStyles(s: string)
    ensures TaskPlan(s) == ScanFrom(s, 0, Numbered) ||
      (ScanFrom(s, 0, Numbered) == [] && TaskPlan(s) == ScanFrom(s, 0, Bulleted))
    ensures forall i :: 0 <= i < |TaskPlan(s)| ==> TaskPlan(s)[i] != []
    ensures forall i, k :: 0 <= i < |TaskPlan(s)| && 0 <= k < |TaskPlan(s)[i]| ==> !IsLineTerminator(TaskPlan(s)[i][k])
  {
  }

  /** A text with no match of either pattern has an empty plan. */
  lemma NoItemsNoPlan(s: string)
    requires forall q :: MatchAt(s, q, Numbered).None? && MatchAt(s, q, Bulleted).None?
    ensures TaskPlan(s) == []
  {
    if Exec(s, 0, Numbered).Some? {
      ExecIsMatchAt(s, 0, Numbered);
    }
    if Exec(s, 0, Bulleted).Some? {
      ExecIsMatchAt(s, 0, Bulleted);
    }
  }

  /**
   * `\s` also matches line terminators, so a number alone on its line takes
   * the next line as its item: "1.\nab" has the one item "ab".
   */
  lemma MarkerAloneTakesNextLine()
    ensures MatchAt("1.\nab", 0, Numbered) == Some(Match(0, 3, 5))
  {
    var s := "1.\nab";
    assert RunEnd(s, 1, IsDigit) == 1;
    assert RunEnd(s, 0, IsDigit) == 1;
    assert MarkerEnd(s, 0, Numbered) == Some(2);
    assert RunEnd(s, 3, IsWhitespace) == 3;
    assert RunEnd(s, 2, IsWhitespace) == 3;
    assert LastTextStart(s, 2, 3) == 3;
    assert RunEnd(s, 5, NotLineTerminator) == 5;
    assert RunEnd(s, 4, NotLineTerminator) == 5;
    assert RunEnd(s, 3, NotLineTerminator) == 5;
  }
}
