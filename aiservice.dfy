/** The deterministic parts of the AI helper: the date and time validators, the
    extraction of the JSON object from a model reply, the filtering of the extracted
    events and meeting suggestions, and the per-member conflict lists sent with a
    scheduling request. The model call itself is replaced by its reply text, and
    `JSON.parse` by a function parameter that gives None where parsing throws. */
module AiService {
  import opened Common
  import Backend
  import Calendar

  // ---------------------------------------------------------------------------
  // Validators

  /** `/^([01]?[0-9]|2[0-3]):[0-5][0-9]$/`. */
  predicate IsValidTime(s: string) {
    (|s| == 4 && IsDigit(s[0]) && s[1] == ':' && '0' <= s[2] <= '5' && IsDigit(s[3]))
    || (|s| == 5 && (('0' <= s[0] <= '1' && IsDigit(s[1])) || (s[0] == '2' && '0' <= s[1] <= '3'))
        && s[2] == ':' && '0' <= s[3] <= '5' && IsDigit(s[4]))
  }

  /** A one- or two-digit hour below 24 and a two-digit minute below 60. */
  predicate ClockPieces(hh: string, mm: string) {
    1 <= |hh| <= 2 && AllDigits(hh) && DigitsValue(hh) < 24
    && |mm| == 2 && AllDigits(mm) && DigitsValue(mm) < 60
  }

  lemma TwoDigitValue(s: string)
    requires |s| == 2 && AllDigits(s)
    ensures DigitsValue(s) == 10 * DigitValue(s[0]) + DigitValue(s[1])
  {
    var p := s[..1];
    assert p[..0] == [] && p[0] == s[0];
    assert DigitsValue(p) == DigitValue(s[0]);
    assert s[..|s| - 1] == p;
  }

  lemma OneDigitValue(s: string)
    requires |s| == 1 && AllDigits(s)
    ensures DigitsValue(s) == DigitValue(s[0])
  {
    assert s[..0] == [];
  }

  /** A valid time is an hour text, a colon and a minute text, within range. */
  lemma {:induction false} ValidTimePieces(s: string)
    requires IsValidTime(s)
    ensures s == s[..|s| - 3] + ":" + s[|s| - 2..]
    ensures ClockPieces(s[..|s| - 3], s[|s| - 2..])
  {
    var hh := s[..|s| - 3];
    var mm := s[|s| - 2..];
    assert s == hh + ":" + mm;
    TwoDigitValue(mm);
    if |s| == 4 {
      OneDigitValue(hh);
    } else {
      TwoDigitValue(hh);
    }
  }

  /** Every hour and minute in range, written this way, is a valid time. */
  lemma {:induction false} ValidTimeOfPieces(hh: string, mm: string)
    requires ClockPieces(hh, mm)
    ensures IsValidTime(hh + ":" + mm)
  {
    var s := hh + ":" + mm;
    TwoDigitValue(mm);
    if |hh| == 1 {
      assert s[0] == hh[0] && s[1] == ':' && s[2] == mm[0] && s[3] == mm[1];
    } else {
      TwoDigitValue(hh);
      assert s[0] == hh[0] && s[1] == hh[1] && s[2] == ':' && s[3] == mm[0] && s[4] == mm[1];
    }
  }

  /** Every time the validator accepts is stored by the service with the same hour and minute. */
  lemma {:induction false} ValidTimeIsStored(s: string)
    requires IsValidTime(s)
    ensures Backend.ParseTimeFromHHMM(Some(s)) ==
      Some(Backend.Clock(DigitsValue(s[..|s| - 3]), DigitsValue(s[|s| - 2..]), 0))
  {
    ValidTimePieces(s);
    var hh := s[..|s| - 3];
    var mm := s[|s| - 2..];
    assert ':' !in hh by { assert forall i | 0 <= i < |hh| :: IsDigit(hh[i]); }
    assert ':' !in mm by { assert forall i | 0 <= i < |mm| :: IsDigit(mm[i]); }
    Backend.SplitTwo(hh, ':', mm);
    assert hh + ":" + mm == hh + [':'] + mm;
  }

  /** `/^\d{4}-\d{2}-\d{2}$/` and a `Date` that is not NaN: the date-only ISO form
      that V8 reads accepts months 01-12 and days 01-31 in every month. */
  predicate IsValidDate(s: string) {
    |s| == 10 && AllDigits(s[..4]) && s[4] == '-' && AllDigits(s[5..7]) && s[7] == '-' && AllDigits(s[8..])
    && 1 <= DigitsValue(s[5..7]) <= 12 && 1 <= DigitsValue(s[8..]) <= 31
  }

  /** A date the validator accepts and that exists in its month is stored as that day. */
  lemma {:induction false} ValidDateIsStored(s: string)
    requires IsValidDate(s) && DigitsValue(s[..4]) >= 1
    requires DigitsValue(s[8..]) <= Calendar.DaysInMonth(DigitsValue(s[..4]), DigitsValue(s[5..7]))
    ensures Backend.StrpDate(s) == Some(Calendar.DayOrdinal(DigitsValue(s[..4]), DigitsValue(s[5..7]), DigitsValue(s[8..])))
  {
    assert s == s[..4] + "-" + s[5..7] + "-" + s[8..];
    Backend.StrpDateOfCanonical(s[..4], s[5..7], s[8..]);
  }

  // Literal steps of `ValidDateNotAlwaysStored`, kept apart so that each stays small.

  lemma YearDigits2023()
    ensures AllDigits("2023") && DigitsValue("2023") == 2023
  {
    assert "2023"[..3] == "202" && "202"[..2] == "20";
    TwoDigitValue("20");
  }

  lemma FebruaryThirtiethPassesValidator()
    ensures IsValidDate("2023-02-30")
  {
    var s := "2023-02-30";
    assert s[..4] == "2023" && s[5..7] == "02" && s[8..] == "30";
    TwoDigitValue("02");
    TwoDigitValue("30");
  }

  lemma FebruaryThirtiethFailsParser()
    ensures Backend.StrpDate("2023-02-30").None?
  {
    YearDigits2023();
    TwoDigitValue("02");
    TwoDigitValue("30");
    Backend.StrpDateRejectsMissingDay("2023", "02", "30");
    assert "2023" + "-" + "02" + "-" + "30" == "2023-02-30";
  }

  /** The validator lets through a day the service's date parser refuses: 30 February. */
  lemma ValidDateNotAlwaysStored()
    ensures IsValidDate("2023-02-30") && Backend.StrpDate("2023-02-30").None?
  {
    FebruaryThirtiethPassesValidator();
    FebruaryThirtiethFailsParser();
  }

  // ---------------------------------------------------------------------------
  // The JSON part of a reply

  /** Index of the first `c` in `s`. */
  function FirstIndexOf(s: string, c: char): (k: nat)
    requires c in s
    ensures k < |s| && s[k] == c
    ensures forall i | 0 <= i < k :: s[i] != c
  {
    if s[0] == c then 0 else 1 + FirstIndexOf(s[1..], c)
  }

  /** Index of the last `c` in `s`. */
  function LastIndexOf(s: string, c: char): (k: nat)
    requires c in s
    ensures k < |s| && s[k] == c
    ensures forall i | k < i < |s| :: s[i] != c
  {
    if s[|s| - 1] == c then |s| - 1 else LastIndexOf(s[..|s| - 1], c)
  }

  /** `reply.match(/\{[\s\S]*\}/)`: from the first '{' to the last '}' after it. */
  function ExtractJsonSpan(reply: string): (r: Option<string>)
    ensures r.Some? <==> '{' in reply && '}' in reply && FirstIndexOf(reply, '{') < LastIndexOf(reply, '}')
    ensures r.Some? ==> |r.value| >= 2 && r.value[0] == '{' && r.value[|r.value| - 1] == '}'
    ensures r.Some? ==> r.value == reply[FirstIndexOf(reply, '{')..LastIndexOf(reply, '}') + 1]
  {
    if '{' in reply && '}' in reply && FirstIndexOf(reply, '{') < LastIndexOf(reply, '}') then
      Some(reply[FirstIndexOf(reply, '{')..LastIndexOf(reply, '}') + 1])
    else
      None
  }

  /** Any '{' with a '}' after it lies within the first '{' and the last '}'. */
  lemma BracePairWithinSpan(reply: string, i: nat, j: nat)
    requires i < j < |reply| && reply[i] == '{' && reply[j] == '}'
    ensures '{' in reply && '}' in reply
    ensures FirstIndexOf(reply, '{') <= i && j <= LastIndexOf(reply, '}')
  {
    assert reply[i] in reply && reply[j] in reply;
  }

  /** A reply has a JSON span exactly when some '{' comes before some '}'. */
  lemma JsonSpanExists(reply: string)
    ensures ExtractJsonSpan(reply).Some? <==>
      exists i, j | 0 <= i < j < |reply| :: reply[i] == '{' && reply[j] == '}'
  {
    if ExtractJsonSpan(reply).Some? {
      var f := FirstIndexOf(reply, '{');
      var l := LastIndexOf(reply, '}');
      assert 0 <= f < l < |reply| && reply[f] == '{' && reply[l] == '}';
    }
    if exists i, j | 0 <= i < j < |reply| :: reply[i] == '{' && reply[j] == '}' {
      var i, j :| 0 <= i < j < |reply| && reply[i] == '{' && reply[j] == '}';
      BracePairWithinSpan(reply, i, j);
    }
  }

  // ---------------------------------------------------------------------------
  // Events found in an e-mail

  datatype EventCandidate = EventCandidate(title: Option<string>, description: Option<string>,
    date: Option<string>, startTime: Option<string>, endTime: Option<string>,
    category: Option<string>, urgency: Option<string>)

  /** The parsed reply: `hasEvent` is None when it is not a boolean, `events` is None
      when it is missing or falsy. */
  datatype EventReply = EventReply(hasEvent: Option<bool>, events: Option<seq<EventCandidate>>)

  datatype EmailAnalysis = EmailAnalysis(hasEvent: bool, events: seq<EventCandidate>)

  predicate IsValidEvent(e: EventCandidate) {
    Present(e.title) && Present(e.date) && Present(e.startTime) && Present(e.endTime)
    && IsValidDate(e.date.value) && IsValidTime(e.startTime.value) && IsValidTime(e.endTime.value)
  }

  /** What the parsed reply offers: its events when it says it has some. */
  function OfferedEvents(reply: Option<string>, parse: string -> Option<EventReply>): seq<EventCandidate> {
    if reply.None? then []
    else match ExtractJsonSpan(reply.value)
      case None => []
      case Some(span) =>
        match parse(span)
        case None => []
        case Some(p) =>
          if p.hasEvent == Some(true) && p.events.Some? then p.events.value else []
  }

  /** `analyzeEmailForEvents`: without an API key, without a reply (a failed request),
      without a JSON object, with a parse error or with a non-boolean `hasEvent`, no
      event; otherwise the offered events that carry a title, a valid date and valid
      start and end times, in the reply's order. */
  function AnalyzeEmail(apiKey: Option<string>, reply: Option<string>, parse: string -> Option<EventReply>): (r: EmailAnalysis)
    ensures !Present(apiKey) ==> r == EmailAnalysis(false, [])
    ensures r.hasEvent <==> |r.events| > 0
    ensures forall e | e in r.events :: IsValidEvent(e)
    ensures Present(apiKey) ==>
      forall e :: e in r.events <==> e in OfferedEvents(reply, parse) && IsValidEvent(e)
  {
    if !Present(apiKey) then EmailAnalysis(false, [])
    else
      var valid := Filter(OfferedEvents(reply, parse), IsValidEvent);
      EmailAnalysis(|valid| > 0, valid)
  }

  // ---------------------------------------------------------------------------
  // Meeting suggestions

  /** A suggestion as parsed; `score` is None when it is not a number. */
  datatype SuggestionCandidate = SuggestionCandidate(date: Option<string>, startTime: Option<string>,
    endTime: Option<string>, score: Option<int>, reasoning: Option<string>)

  /** The parsed reply: `success` as a condition, `suggestions` None when not an array. */
  datatype SuggestionReply = SuggestionReply(success: bool, suggestions: Option<seq<SuggestionCandidate>>)

  datatype SuggestionResult = SuggestionResult(success: bool, suggestions: seq<SuggestionCandidate>, error: Option<string>)

  predicate IsValidSuggestion(s: SuggestionCandidate) {
    Present(s.date) && Present(s.startTime) && Present(s.endTime) && s.score.Some? && Present(s.reasoning)
    && IsValidDate(s.date.value) && IsValidTime(s.startTime.value) && IsValidTime(s.endTime.value)
  }

  /** What the request gives: the reply text, or the message of the error thrown
      (a failed request or a reply without content). */
  type Reply = Result<string, string>

  /** `findOptimalMeetingTimes` after the request: the first ten valid suggestions of a
      well-formed reply, or a failure with its message. */
  function MeetingSuggestions(apiKey: Option<string>, reply: Reply, parse: string -> Option<SuggestionReply>): (r: SuggestionResult)
    ensures !Present(apiKey) ==> r == SuggestionResult(false, [], Some("AI service not configured"))
    ensures r.success ==> |r.suggestions| <= 10 && r.error.None?
    ensures forall s | s in r.suggestions :: IsValidSuggestion(s)
    ensures !r.success ==> r.suggestions == [] && r.error.Some?
    ensures r.success <==> (Present(apiKey) && reply.Ok? && ExtractJsonSpan(reply.value).Some?
      && parse(ExtractJsonSpan(reply.value).value).Some?
      && parse(ExtractJsonSpan(reply.value).value).value.success
      && parse(ExtractJsonSpan(reply.value).value).value.suggestions.Some?)
    ensures r.success ==>
      r.suggestions == Take(Filter(parse(ExtractJsonSpan(reply.value).value).value.suggestions.value, IsValidSuggestion), 10)
  {
    if !Present(apiKey) then SuggestionResult(false, [], Some("AI service not configured"))
    else match reply
      case Err(message) => SuggestionResult(false, [], Some(if message == "" then "AI service error" else message))
      case Ok(text) =>
        match ExtractJsonSpan(text)
        case None => SuggestionResult(false, [], Some("Invalid AI response format"))
        case Some(span) =>
          match parse(span)
          case None => SuggestionResult(false, [], Some("Failed to parse AI response"))
          case Some(p) =>
            if !p.success || p.suggestions.None? then SuggestionResult(false, [], Some("Invalid response structure"))
            else
              var valid := Filter(p.suggestions.value, IsValidSuggestion);
              var kept := Take(valid, 10);
              assert forall s | s in kept :: s in valid;
              SuggestionResult(true, kept, None)
  }

  // ---------------------------------------------------------------------------
  // Member schedules sent with a scheduling request

  /** A date field as `new Date` reads it: missing or empty, unreadable, or a day. */
  datatype DateText = NoDate | BadDate(text: string) | IsoDate(day: int)

  datatype ActivityInfo = ActivityInfo(title: Option<string>, date: DateText,
    startTime: Option<string>, endTime: Option<string>, urgency: Option<string>)

  datatype TimelineInfo = TimelineInfo(title: Option<string>, startDate: DateText, endDate: DateText,
    startTime: Option<string>, endTime: Option<string>)

  datatype GoalInfo = GoalInfo(title: Option<string>, timelines: seq<TimelineInfo>)

  datatype MeetingInfo = MeetingInfo(title: Option<string>, date: DateText, startTime: Option<string>, endTime: Option<string>)

  datatype Schedule = Schedule(activities: seq<ActivityInfo>, goals: seq<GoalInfo>, meetings: seq<MeetingInfo>)

  /** A member's `userid`: the number the service gives, or a placeholder text. */
  datatype UserId = NumId(n: int) | TextId(s: string)

  datatype TeamMember = TeamMember(userid: UserId, username: Option<string>, email: string)

  /** The property name a `userid` becomes when used as an object key. */
  function KeyOf(u: UserId): string {
    match u
    case NumId(n) => IntToString(n)
    case TextId(s) => s
  }

  /** A text field inside a template literal: a missing value prints as "null". */
  function TemplateText(s: Option<string>): string {
    if s.Some? then s.value else "null"
  }

  datatype Conflict =
    | ActivityConflict(title: Option<string>, date: DateText, startTime: Option<string>,
        endTime: Option<string>, urgency: Option<string>)
    | GoalConflict(goalText: string, startDate: DateText, endDate: DateText,
        startTime: Option<string>, endTime: Option<string>)
    | MeetingConflict(title: Option<string>, date: DateText, startTime: Option<string>, endTime: Option<string>)

  function ActivityConflictOf(a: ActivityInfo): Conflict {
    ActivityConflict(a.title, a.date, a.startTime, a.endTime, a.urgency)
  }

  function GoalConflictOf(g: GoalInfo, t: TimelineInfo): Conflict {
    GoalConflict(TemplateText(g.title) + " - " + TemplateText(t.title), t.startDate, t.endDate, t.startTime, t.endTime)
  }

  function MeetingConflictOf(m: MeetingInfo): Conflict {
    MeetingConflict(m.title, m.date, m.startTime, m.endTime)
  }

  function ActivityConflicts(a: ActivityInfo): seq<Conflict> {
    [ActivityConflictOf(a)]
  }

  function MeetingConflicts(m: MeetingInfo): seq<Conflict> {
    [MeetingConflictOf(m)]
  }

  function GoalTimelineConflicts(g: GoalInfo): seq<Conflict> {
    FlatMap(g.timelines, (t: TimelineInfo) => [GoalConflictOf(g, t)])
  }

  /** A member's conflict list: every activity, then one entry per goal timeline, then
      every meeting. */
  function ConflictsOf(s: Schedule): seq<Conflict> {
    FlatMap(s.activities, ActivityConflicts)
    + FlatMap(s.goals, GoalTimelineConflicts)
    + FlatMap(s.meetings, MeetingConflicts)
  }

  lemma {:induction false} FlatMapSingletons<T, U>(xs: seq<T>, f: T -> seq<U>)
    requires forall x :: |f(x)| == 1
    ensures |FlatMap(xs, f)| == |xs|
    ensures forall i | 0 <= i < |xs| :: FlatMap(xs, f)[i] == f(xs[i])[0]
  {
    if xs != [] {
      FlatMapSingletons(xs[..|xs| - 1], f);
      assert forall i | 0 <= i < |xs| - 1 :: xs[..|xs| - 1][i] == xs[i];
    }
  }

  lemma {:induction false} GoalConflictsAreGoals(goals: seq<GoalInfo>)
    ensures forall c | c in FlatMap(goals, GoalTimelineConflicts) :: c.GoalConflict?
  {
    forall c | c in FlatMap(goals, GoalTimelineConflicts) ensures c.GoalConflict? {
      FlatMapMembers(goals, GoalTimelineConflicts, c);
      var g :| g in goals && c in GoalTimelineConflicts(g);
      FlatMapMembers(g.timelines, (t: TimelineInfo) => [GoalConflictOf(g, t)], c);
    }
  }

  /** The list holds the activities first, in order, then only timeline entries, and
      ends with the meetings, in order. */
  lemma ConflictsLayout(s: Schedule)
    ensures |ConflictsOf(s)| >= |s.activities| + |s.meetings|
    ensures forall i | 0 <= i < |s.activities| :: ConflictsOf(s)[i] == ActivityConflictOf(s.activities[i])
    ensures forall i | |s.activities| <= i < |ConflictsOf(s)| - |s.meetings| :: ConflictsOf(s)[i].GoalConflict?
    ensures forall i | 0 <= i < |s.meetings| ::
      ConflictsOf(s)[|ConflictsOf(s)| - |s.meetings| + i] == MeetingConflictOf(s.meetings[i])
  {
    FlatMapSingletons(s.activities, ActivityConflicts);
    FlatMapSingletons(s.meetings, MeetingConflicts);
    GoalConflictsAreGoals(s.goals);
    var acts := FlatMap(s.activities, ActivityConflicts);
    var gs := FlatMap(s.goals, GoalTimelineConflicts);
    var ms := FlatMap(s.meetings, MeetingConflicts);
    var c := ConflictsOf(s);
    assert c == acts + gs + ms;
    forall i | 0 <= i < |acts| ensures c[i] == acts[i] {
    }
    forall i | |acts| <= i < |c| - |ms| ensures c[i].GoalConflict? {
      assert c[i] == gs[i - |acts|];
    }
    forall i | 0 <= i < |ms| ensures c[|c| - |ms| + i] == ms[i] {
    }
  }

  /** `teamMembers.find(m => m.userid === userId)?.username ?? userId` as written: the
      key is a text, so only a member whose `userid` is that same text is found. */
  function MemberNameAsWritten(members: seq<TeamMember>, key: string): string {
    if members == [] then key
    else if members[0].userid == TextId(key) then
      (if members[0].username.Some? then members[0].username.value else "undefined")
    else MemberNameAsWritten(members[1..], key)
  }

  /** No member with a numeric `userid` is ever found by the lookup as written. */
  lemma {:induction false} AsWrittenSkipsNumericIds(members: seq<TeamMember>, key: string)
    requires forall i | 0 <= i < |members| :: members[i].userid.NumId?
    ensures MemberNameAsWritten(members, key) == key
  {
    if members != [] {
      AsWrittenSkipsNumericIds(members[1..], key);
    }
  }

  /** A member found by the service is listed under its id, not its name. */
  lemma AsWrittenListsIdNotName()
    ensures MemberNameAsWritten([TeamMember(NumId(5), Some("alice"), "alice@example.com")], "5") == "5"
    ensures MemberName([TeamMember(NumId(5), Some("alice"), "alice@example.com")], "5") == "alice"
  {
    assert IntToString(5) == "5";
  }

  /** The lookup as intended: the member whose id, used as a key, is that key. */
  function MemberName(members: seq<TeamMember>, key: string): (name: string)
    ensures (forall i | 0 <= i < |members| :: KeyOf(members[i].userid) != key) ==> name == key
  {
    if members == [] then key
    else if KeyOf(members[0].userid) == key then
      (if members[0].username.Some? then members[0].username.value else "undefined")
    else MemberName(members[1..], key)
  }

  /** The first member with a given key is listed under its user name. */
  lemma {:induction false} MemberNameFindsFirst(members: seq<TeamMember>, i: nat)
    requires i < |members| && members[i].username.Some?
    requires forall j | 0 <= j < i :: KeyOf(members[j].userid) != KeyOf(members[i].userid)
    ensures MemberName(members, KeyOf(members[i].userid)) == members[i].username.value
  {
    if i > 0 {
      MemberNameFindsFirst(members[1..], i - 1);
    }
  }

  /** The schedules in key order, as `Object.keys` lists them. */
  datatype KeyedSchedule = KeyedSchedule(key: string, schedule: Schedule)

  /** Which member lookup names a key: the comparison as written, or the intended one. */
  datatype NameLookup = AsWritten | ByKey

  function NameOf(lookup: NameLookup, members: seq<TeamMember>, key: string): string {
    match lookup
    case AsWritten => MemberNameAsWritten(members, key)
    case ByKey => MemberName(members, key)
  }

  /** `memberScheduleAnalysis`: each key's conflict list stored under its member's name,
      a later key overwriting an earlier one of the same name. */
  function AnalysisOf(lookup: NameLookup, members: seq<TeamMember>, entries: seq<KeyedSchedule>)
    : map<string, seq<Conflict>>
  {
    if entries == [] then map[]
    else
      var last := entries[|entries| - 1];
      AnalysisOf(lookup, members, entries[..|entries| - 1])[NameOf(lookup, members, last.key) := ConflictsOf(last.schedule)]
  }

  /** The name each key is listed under, in key order. */
  function ListedNames(lookup: NameLookup, members: seq<TeamMember>, entries: seq<KeyedSchedule>): (names: seq<string>)
    ensures |names| == |entries|
    ensures forall i | 0 <= i < |entries| :: names[i] == NameOf(lookup, members, entries[i].key)
  {
    seq(|entries|, i requires 0 <= i < |entries| => NameOf(lookup, members, entries[i].key))
  }

  lemma ListedNamesStep(lookup: NameLookup, members: seq<TeamMember>, entries: seq<KeyedSchedule>)
    requires entries != []
    ensures ListedNames(lookup, members, entries)
      == ListedNames(lookup, members, entries[..|entries| - 1]) + [NameOf(lookup, members, entries[|entries| - 1].key)]
  {
    var a := ListedNames(lookup, members, entries);
    var b := ListedNames(lookup, members, entries[..|entries| - 1]) + [NameOf(lookup, members, entries[|entries| - 1].key)];
    assert forall k | 0 <= k < |entries| :: a[k] == b[k];
  }

  /** The names listed are exactly the names of the keys' members, under either lookup. */
  lemma {:induction false} AnalysisNames(lookup: NameLookup, members: seq<TeamMember>, entries: seq<KeyedSchedule>, name: string)
    ensures name in AnalysisOf(lookup, members, entries) <==> name in ListedNames(lookup, members, entries)
  {
    if entries != [] {
      AnalysisNames(lookup, members, entries[..|entries| - 1], name);
      ListedNamesStep(lookup, members, entries);
    }
  }

  /** A name holds the conflicts of the last key listed under it, under either lookup. */
  lemma {:induction false} AnalysisLastWins(lookup: NameLookup, members: seq<TeamMember>, entries: seq<KeyedSchedule>, i: nat)
    requires i < |entries|
    requires forall j | i < j < |entries| ::
      NameOf(lookup, members, entries[j].key) != NameOf(lookup, members, entries[i].key)
    ensures NameOf(lookup, members, entries[i].key) in AnalysisOf(lookup, members, entries)
    ensures AnalysisOf(lookup, members, entries)[NameOf(lookup, members, entries[i].key)] == ConflictsOf(entries[i].schedule)
  {
    if i < |entries| - 1 {
      var init := entries[..|entries| - 1];
      assert init[i] == entries[i];
      assert forall j | i < j < |init| :: init[j] == entries[j];
      AnalysisLastWins(lookup, members, init, i);
    }
  }

  /** As written, when every member's `userid` is a number the analysis is keyed by the
      raw ids: its names are exactly the keys, and no user name appears. */
  lemma AsWrittenAnalysisKeys(members: seq<TeamMember>, entries: seq<KeyedSchedule>, name: string)
    requires forall i | 0 <= i < |members| :: members[i].userid.NumId?
    ensures name in AnalysisOf(AsWritten, members, entries) <==> exists i | 0 <= i < |entries| :: entries[i].key == name
  {
    AnalysisNames(AsWritten, members, entries, name);
    var names := ListedNames(AsWritten, members, entries);
    forall i | 0 <= i < |entries| ensures names[i] == entries[i].key {
      AsWrittenSkipsNumericIds(members, entries[i].key);
    }
  }

  /** Pushes one entry per timeline of a goal. */
  method AppendGoalTimelines(conflicts: seq<Conflict>, g: GoalInfo) returns (r: seq<Conflict>)
    ensures r == conflicts + GoalTimelineConflicts(g)
  {
    r := conflicts;
    var k := 0;
    while k < |g.timelines|
      invariant 0 <= k <= |g.timelines|
      invariant r == conflicts + FlatMap(g.timelines[..k], (t: TimelineInfo) => [GoalConflictOf(g, t)])
    {
      assert g.timelines[..k + 1][..k] == g.timelines[..k];
      r := r + [GoalConflictOf(g, g.timelines[k])];
      k := k + 1;
    }
    assert g.timelines[..k] == g.timelines;
  }

  /** Pushes one entry per activity. */
  method AppendActivities(conflicts: seq<Conflict>, activities: seq<ActivityInfo>) returns (r: seq<Conflict>)
    ensures r == conflicts + FlatMap(activities, ActivityConflicts)
  {
    r := conflicts;
    var i := 0;
    while i < |activities|
      invariant 0 <= i <= |activities|
      invariant r == conflicts + FlatMap(activities[..i], ActivityConflicts)
    {
      FlatMapStep(activities, i, ActivityConflicts);
      r := r + [ActivityConflictOf(activities[i])];
      i := i + 1;
    }
    assert activities[..i] == activities;
  }

  lemma AppendGoalsStep(conflicts: seq<Conflict>, goals: seq<GoalInfo>, i: nat, r: seq<Conflict>, next: seq<Conflict>)
    requires i < |goals|
    requires r == conflicts + FlatMap(goals[..i], GoalTimelineConflicts)
    requires next == r + GoalTimelineConflicts(goals[i])
    ensures next == conflicts + FlatMap(goals[..i + 1], GoalTimelineConflicts)
  {
    FlatMapStep(goals, i, GoalTimelineConflicts);
  }

  /** Pushes the timeline entries of every goal. */
  method AppendGoals(conflicts: seq<Conflict>, goals: seq<GoalInfo>) returns (r: seq<Conflict>)
    ensures r == conflicts + FlatMap(goals, GoalTimelineConflicts)
  {
    r := conflicts;
    var i := 0;
    while i < |goals|
      invariant 0 <= i <= |goals|
      invariant r == conflicts + FlatMap(goals[..i], GoalTimelineConflicts)
    {
      var next := AppendGoalTimelines(r, goals[i]);
      AppendGoalsStep(conflicts, goals, i, r, next);
      r := next;
      i := i + 1;
    }
    assert goals[..i] == goals;
  }

  /** Pushes one entry per meeting. */
  method AppendMeetings(conflicts: seq<Conflict>, meetings: seq<MeetingInfo>) returns (r: seq<Conflict>)
    ensures r == conflicts + FlatMap(meetings, MeetingConflicts)
  {
    r := conflicts;
    var i := 0;
    while i < |meetings|
      invariant 0 <= i <= |meetings|
      invariant r == conflicts + FlatMap(meetings[..i], MeetingConflicts)
    {
      FlatMapStep(meetings, i, MeetingConflicts);
      r := r + [MeetingConflictOf(meetings[i])];
      i := i + 1;
    }
    assert meetings[..i] == meetings;
  }

  /** The conflict list of one member, built by pushes. */
  method BuildConflicts(s: Schedule) returns (conflicts: seq<Conflict>)
    ensures conflicts == ConflictsOf(s)
  {
    conflicts := AppendActivities([], s.activities);
    conflicts := AppendGoals(conflicts, s.goals);
    conflicts := AppendMeetings(conflicts, s.meetings);
    assert [] + FlatMap(s.activities, ActivityConflicts) == FlatMap(s.activities, ActivityConflicts);
  }

  /** The `Object.keys(...).forEach` loop that fills `memberScheduleAnalysis`. */
  method ScheduleAnalysis(members: seq<TeamMember>, entries: seq<KeyedSchedule>)
    returns (analysis: map<string, seq<Conflict>>)
    ensures analysis == AnalysisOf(AsWritten, members, entries)
  {
    analysis := map[];
    var i := 0;
    while i < |entries|
      invariant 0 <= i <= |entries|
      invariant analysis == AnalysisOf(AsWritten, members, entries[..i])
    {
      assert entries[..i + 1][..i] == entries[..i];
      var conflicts := BuildConflicts(entries[i].schedule);
      analysis := analysis[MemberNameAsWritten(members, entries[i].key) := conflicts];
      i := i + 1;
    }
    assert entries[..i] == entries;
  }
}
