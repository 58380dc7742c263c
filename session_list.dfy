/**
 * The pure logic of the session list: the duration label, the one-hour
 * activity test, the todo-progress icon, the sessions shown for the selected
 * project, and the card's title and todo counter.
 */
module SessionListView {

  import opened Optional
  import opened Seqs
  import opened Text
  import opened JsValues
  import opened ClaudeTypes
  import opened ClaudeFs

  const MINUTE_MS: int := 60 * 1000
  const HOUR_MS: int := 60 * 60 * 1000

  // --------------------------------------------------------------- duration

  /** `formatDuration`: whole minutes, as "<h>h <m>m" from one hour on, else "<m>m". */
  function FormatDuration(ms: int): string {
    // Math.floor of a quotient by a positive divisor is Dafny's `/`
    var minutes := ms / MINUTE_MS;
    var hours := minutes / 60;
    // hours > 0 makes minutes positive, where JavaScript's `%` and Dafny's agree
    if hours > 0 then IntToString(hours) + "h " + IntToString(minutes % 60) + "m"
    else IntToString(minutes) + "m"
  }

  predicate AllDigits(s: string) {
    forall i :: 0 <= i < |s| ==> IsDigit(s[i])
  }

  /** A number of minutes read back from a duration label: "<digits>m" or "<digits>h <digits>m". */
  function ReadDuration(shown: string): Option<nat> {
    if shown == [] || shown[|shown| - 1] != 'm' then None
    else ReadDurationBody(shown[..|shown| - 1])
  }

  /** The label without its final "m": minutes alone, or hours, "h", a space and minutes. */
  function ReadDurationBody(body: string): Option<nat> {
    var i := IndexOfChar(body, 'h');
    if i < 0 then ReadNumber(body)
    else ReadHoursAndMinutes(body[..i], body[i + 1..])
  }

  function ReadHoursAndMinutes(hs: string, rest: string): Option<nat> {
    if rest == [] || rest[0] != ' ' then None
    else
      match (ReadNumber(hs), ReadNumber(rest[1..]))
      case (Some(h), Some(m)) => Some(60 * h + m)
      case _ => None
  }

  /** A non-empty run of decimal digits and its value. */
  function ReadNumber(s: string): Option<nat> {
    if s != [] && AllDigits(s) then Some(DigitsValue(s)) else None
  }

  /** A duration label is read from everything before its final "m". */
  lemma ReadDurationLast(body: string)
    ensures ReadDuration(body + "m") == ReadDurationBody(body)
  {
    assert (body + "m")[..|body|] == body;
  }

  /** With no "h" in the hours, the body splits at the "h" that follows them. */
  lemma ReadDurationBodySplit(hs: string, rest: string)
    requires AllDigits(hs)
    ensures ReadDurationBody(hs + "h" + rest) == ReadHoursAndMinutes(hs, rest)
  {
    var body := hs + "h" + rest;
    assert 'h' !in hs by {
      assert forall k :: 0 <= k < |hs| ==> IsDigit(hs[k]);
    }
    IndexOfCharAt(hs, 'h', rest);
    assert body[..|hs|] == hs;
    assert body[|hs| + 1..] == rest;
  }

  /** A digits-only body has no "h": it is read as minutes. */
  lemma ReadDurationBodyMinutes(mm: string)
    requires AllDigits(mm)
    ensures ReadDurationBody(mm) == ReadNumber(mm)
  {
    assert 'h' !in mm by {
      assert forall k :: 0 <= k < |mm| ==> IsDigit(mm[k]);
    }
  }

  /** After the "h", a space and the minutes. */
  lemma ReadHoursAndMinutesSpace(hs: string, mm: string)
    requires hs != [] && AllDigits(hs) && mm != [] && AllDigits(mm)
    ensures ReadHoursAndMinutes(hs, " " + mm) == Some(60 * DigitsValue(hs) + DigitsValue(mm))
  {
    assert (" " + mm)[1..] == mm;
  }

  /** Any "<digits>h <digits>m" label reads back as its hours and minutes. */
  lemma ReadDigitsHoursMinutes(hs: string, mm: string)
    requires hs != [] && AllDigits(hs) && mm != [] && AllDigits(mm)
    ensures ReadDuration(hs + "h " + mm + "m") == Some(60 * DigitsValue(hs) + DigitsValue(mm))
  {
    var rest := " " + mm;
    var body := hs + "h" + rest;
    assert body + "m" == hs + "h " + mm + "m";
    ReadDurationLast(body);
    ReadDurationBodySplit(hs, rest);
    ReadHoursAndMinutesSpace(hs, mm);
  }

  /** Any "<digits>m" label reads back as its minutes. */
  lemma ReadDigitsMinutes(mm: string)
    requires mm != [] && AllDigits(mm)
    ensures ReadDuration(mm + "m") == Some(DigitsValue(mm))
  {
    ReadDurationLast(mm);
    ReadDurationBodyMinutes(mm);
  }

  /** "<h>h <m>m" reads back as `60 * h + m` minutes. */
  lemma ReadHoursMinutes(h: nat, m: nat)
    ensures ReadDuration(NatToString(h) + "h " + NatToString(m) + "m") == Some(60 * h + m)
  {
    var hs, mm := NatToString(h), NatToString(m);
    ReadDigitsHoursMinutes(hs, mm);
    NatToStringRoundTrip(h);
    NatToStringRoundTrip(m);
  }

  /** "<m>m" reads back as `m` minutes. */
  lemma ReadMinutes(m: nat)
    ensures ReadDuration(NatToString(m) + "m") == Some(m)
  {
    var mm := NatToString(m);
    ReadDigitsMinutes(mm);
    NatToStringRoundTrip(m);
  }

  /**
   * The label of a non-negative duration shows exactly its whole minutes:
   * reading the hours and minutes back gives `ms / 60000`.
   */
  lemma FormatDurationRoundTrip(ms: nat)
    ensures ReadDuration(FormatDuration(ms)) == Some(ms / MINUTE_MS)
  {
    var minutes := ms / MINUTE_MS;
    if minutes >= 60 {
      FormatDurationMinutesBelowHour(ms);
      ReadHoursMinutes(minutes / 60, minutes % 60);
    } else {
      FormatDurationBelowHour(ms);
      ReadMinutes(minutes);
    }
  }

  /** Below one hour the label is the whole minutes alone. */
  lemma FormatDurationBelowHour(ms: nat)
    requires ms / MINUTE_MS < 60
    ensures FormatDuration(ms) == NatToString(ms / MINUTE_MS) + "m"
  {
  }

  /** From one hour on, the minutes part of the label is below 60. */
  lemma FormatDurationMinutesBelowHour(ms: nat)
    requires ms / MINUTE_MS >= 60
    ensures FormatDuration(ms) == NatToString(ms / MINUTE_MS / 60) + "h " + NatToString(ms / MINUTE_MS % 60) + "m"
    ensures ms / MINUTE_MS % 60 < 60
  {
  }

  // --------------------------------------------------------------- activity

  /** The card's activity test: updated within the last hour, strictly. */
  predicate IsActive(s: ClaudeSession, now: int) {
    s.lastUpdate > now - HOUR_MS
  }

  /** `getStatusColor`: the badge variant. */
  function StatusColor(s: ClaudeSession, now: int): (r: string)
    ensures r == "default" <==> IsActive(s, now)
    ensures r == "secondary" <==> !IsActive(s, now)
  {
    if IsActive(s, now) then "default" else "secondary"
  }

  /** The badge's text, computed by the same test. */
  function ActivityLabel(s: ClaudeSession, now: int): (r: string)
    ensures r == "Active" <==> s.lastUpdate > now - 3600000
    ensures r == "Inactive" <==> s.lastUpdate <= now - 3600000
  {
    if s.lastUpdate > now - 60 * 60 * 1000 then "Active" else "Inactive"
  }

  /**
   * The badge reads the clock twice: first for its variant (`colorAt`), then
   * for its text (`labelAt`). An "Active" text always comes with the
   * "default" variant, the two agree when the readings are equal, and they
   * disagree exactly when the last update falls between the two hour marks.
   */
  lemma BadgeAgrees(s: ClaudeSession, colorAt: int, labelAt: int)
    requires colorAt <= labelAt
    ensures ActivityLabel(s, labelAt) == "Active" ==> StatusColor(s, colorAt) == "default"
    ensures colorAt == labelAt ==> ((StatusColor(s, colorAt) == "default") == (ActivityLabel(s, labelAt) == "Active"))
    ensures (StatusColor(s, colorAt) == "default" && ActivityLabel(s, labelAt) == "Inactive") <==>
      colorAt - HOUR_MS < s.lastUpdate <= labelAt - HOUR_MS
  {
  }

  /**
   * A session read at `readAt` has `lastUpdate >= readAt`, so it shows as
   * active for the whole hour after it was read, whatever its records say.
   */
  lemma ActiveForAnHourAfterReading(s: ClaudeSession, readAt: int, now: int)
    requires s.lastUpdate >= readAt && readAt <= now < readAt + HOUR_MS
    ensures ActivityLabel(s, now) == "Active"
  {
  }

  // -------------------------------------------------------------- todo icon

  datatype StatusIcon = Plain | Check | Alert

  /** `getStatusIcon`: the progress of a session's todos. */
  function StatusIconOf(s: ClaudeSession): StatusIcon {
    var completed := Count(s.todos, IsCompleted);
    var total := |s.todos|;
    if total == 0 then Plain
    else if completed == total then Check
    else if completed > 0 then Alert
    else Plain
  }

  /** The number of completed todos never exceeds the total, and counts exactly the completed ones. */
  lemma {:induction false} CountCompleted(ts: seq<TodoItem>)
    ensures Count(ts, IsCompleted) <= |ts|
    ensures Count(ts, IsCompleted) == |ts| <==> forall i :: 0 <= i < |ts| ==> IsCompleted(ts[i])
    ensures Count(ts, IsCompleted) == 0 <==> forall i :: 0 <= i < |ts| ==> !IsCompleted(ts[i])
  {
    if ts != [] {
      CountCompleted(ts[1..]);
      assert forall i :: 1 <= i < |ts| ==> ts[i] == ts[1..][i - 1];
    }
  }

  /**
   * A check when there are todos and all are completed; an alert when some
   * but not all are; plain when there are none or none is completed.
   */
  lemma StatusIconCases(s: ClaudeSession)
    ensures StatusIconOf(s) == Check <==>
      (s.todos != [] && forall i :: 0 <= i < |s.todos| ==> IsCompleted(s.todos[i]))
    ensures StatusIconOf(s) == Alert <==>
      ((exists i :: 0 <= i < |s.todos| && IsCompleted(s.todos[i])) &&
       (exists i :: 0 <= i < |s.todos| && !IsCompleted(s.todos[i])))
    ensures StatusIconOf(s) == Plain <==> forall i :: 0 <= i < |s.todos| ==> !IsCompleted(s.todos[i])
  {
    CountCompleted(s.todos);
  }

  /** The card's "completed/total" counter. */
  function TodoCounter(s: ClaudeSession): (r: (nat, nat))
    ensures r.0 <= r.1 == |s.todos|
    ensures r.0 == |set i | 0 <= i < |s.todos| && s.todos[i].status == Str("completed")|
  {
    CountCompleted(s.todos);
    CompletedTodosCounted(s.todos);
    (Count(s.todos, IsCompleted), |s.todos|)
  }

  // ------------------------------------------------------------- the list

  /** `selectedProject.sessions.some(ps => ps.id === s.id)`. */
  function InProject(p: ClaudeProject): ClaudeSession -> bool {
    (s: ClaudeSession) => exists i :: 0 <= i < |p.sessions| && p.sessions[i].id == s.id
  }

  /** `projectSessions`: the stored sessions that the selected project lists, in stored order. */
  function ProjectSessions(sessions: seq<ClaudeSession>, p: ClaudeProject): (r: seq<ClaudeSession>)
    ensures IsSubseq(r, sessions)
    ensures forall i :: 0 <= i < |r| ==> exists j :: 0 <= j < |p.sessions| && p.sessions[j].id == r[i].id
    ensures forall i, j :: 0 <= i < |sessions| && 0 <= j < |p.sessions| && p.sessions[j].id == sessions[i].id ==>
      sessions[i] in r
    ensures forall s :: multiset(r)[s] == if InProject(p)(s) then multiset(sessions)[s] else 0
  {
    FilterIsSubseq(sessions, InProject(p));
    FilterMultisets(sessions, InProject(p));
    FilterMembers(sessions, InProject(p));
    Filter(sessions, InProject(p))
  }

  datatype ListView = SelectProject | NoSessions | Cards(sessions: seq<ClaudeSession>)

  /** What the list shows: a prompt without a project, a notice without sessions, else the cards. */
  function SessionList(sessions: seq<ClaudeSession>, selectedProject: Option<ClaudeProject>): (v: ListView)
    ensures selectedProject.None? <==> v == SelectProject
    ensures v.NoSessions? <==> selectedProject.Some? && ProjectSessions(sessions, selectedProject.value) == []
    ensures v.Cards? ==> v.sessions == ProjectSessions(sessions, selectedProject.value) && v.sessions != []
  {
    match selectedProject
    case None => SelectProject
    case Some(p) =>
      var shown := ProjectSessions(sessions, p);
      if |shown| == 0 then NoSessions else Cards(shown)
  }

  /** The card title: "Session " and the last eight characters of the id. */
  function Title(s: ClaudeSession): (r: string)
    ensures |r| == 8 + (if |s.id| < 8 then |s.id| else 8) && r[..8] == "Session "
    ensures EndsWith(s.id, r[8..])
  {
    "Session " + LastChars(s.id, 8)
  }
}
