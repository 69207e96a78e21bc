/** The left sidebar: the mini month calendar with its goal-day marks and
    most-urgent-item dots, and the past and upcoming item lists with their ordering.
    Instants are milliseconds since 1970-01-01 00:00, read in one fixed time zone. */
module Sidebar {
  import opened Common
  import opened Planner
  import opened Sorting
  import opened Calendar

  const MinuteMs := 60000
  const DayMs := 86400000

  // ---------------------------------------------------------------------------
  // Time strings

  /** The value of `timeStringToMinutes`: `null`, a number, or `NaN`. */
  datatype Minutes = NoTime | At(minutes: int) | NotANumber

  /** The second piece of `s.split(':')`; `None` (undefined) when `s` has no colon. */
  function SecondPiece(s: string): (r: Option<string>)
    ensures r.Some? ==> ':' !in r.value
    ensures r.None? <==> ':' !in s
  {
    match AfterFirst(s, ':')
    case None => None
    case Some(rest) => Some(BeforeFirst(rest, ':'))
  }

  /** `timeStringToMinutes`: `null` for an empty or missing time, else `Number` of the
      first two colon-separated pieces taken as hours and minutes; `NaN` when either
      piece is not a number or there is no minutes piece. */
  function TimeStringToMinutes(s: string): (r: Minutes)
    ensures r.NoTime? <==> s == ""
  {
    if s == "" then NoTime
    else
      var h := NumberOf(BeforeFirst(s, ':'));
      var m := if SecondPiece(s).Some? then NumberOf(SecondPiece(s).value) else None;
      if h.Some? && m.Some? then At(h.value * 60 + m.value) else NotANumber
  }

  /** The pieces of `hh:mm` followed by nothing or by a further `:` part. */
  lemma ClockPieces(hh: string, mm: string, rest: string)
    requires ':' !in hh && ':' !in mm && (rest == [] || rest[0] == ':')
    ensures BeforeFirst(hh + ":" + mm + rest, ':') == hh
    ensures SecondPiece(hh + ":" + mm + rest) == Some(mm)
  {
    assert hh + ":" + mm + rest == hh + [':'] + (mm + rest);
    SplitAtFirst(hh, ':', mm + rest);
    BeforeFirstOfPrefix(mm, ':', rest);
  }

  /** Digit runs `hh:mm`, with or without a further `:` part, give 60·hh + mm. */
  lemma TimeStringToMinutesOfDigits(hh: string, mm: string, rest: string)
    requires hh != [] && AllDigits(hh) && mm != [] && AllDigits(mm)
    requires rest == [] || rest[0] == ':'
    ensures TimeStringToMinutes(hh + ":" + mm + rest) == At(60 * DigitsValue(hh) + DigitsValue(mm))
  {
    assert ':' !in hh && ':' !in mm by {
      assert !IsDigit(':');
    }
    ClockPieces(hh, mm, rest);
    MinutesOfPieces(hh + ":" + mm + rest, hh, mm);
  }

  lemma MinutesOfPieces(s: string, hh: string, mm: string)
    requires s != [] && BeforeFirst(s, ':') == hh && SecondPiece(s) == Some(mm)
    requires hh != [] && AllDigits(hh) && mm != [] && AllDigits(mm)
    ensures TimeStringToMinutes(s) == At(60 * DigitsValue(hh) + DigitsValue(mm))
  {
  }

  // ---------------------------------------------------------------------------
  // Past and upcoming entries

  datatype ItemKind = ActivityItem | GoalItem | MeetingItem

  /** One line of the past or upcoming list: what it is, the id and title shown, its
      deadline instant, and the start and end time of the item it comes from. */
  datatype Entry = Entry(kind: ItemKind, id: int, title: string, deadline: int, start: Option<int>, end: Option<int>)

  /** The calendar day of the deadline, which `toDateString` compares. */
  function Day(e: Entry): int {
    e.deadline / DayMs
  }

  /** `getItemStartTime`: the start minute, or 9999 for an untimed item. */
  function StartMinute(e: Entry): int {
    if e.start.Some? then e.start.value else 9999
  }

  /** `getItemEndTime`: the end minute, or 9999 for an untimed item. */
  function EndMinute(e: Entry): int {
    if e.end.Some? then e.end.value else 9999
  }

  /** The past list's comparator as written: a different day decides by the deadlines
      (later first), then goals after the rest, then start and end minute. */
  function PastCompare(a: Entry, b: Entry): int {
    if Day(a) != Day(b) then b.deadline - a.deadline
    else if a.kind == GoalItem && b.kind != GoalItem then 1
    else if a.kind != GoalItem && b.kind == GoalItem then -1
    else if StartMinute(a) != StartMinute(b) then StartMinute(a) - StartMinute(b)
    else EndMinute(a) - EndMinute(b)
  }

  /** The upcoming list's comparator as written: earlier day first, then start and end minute. */
  function UpcomingCompare(a: Entry, b: Entry): int {
    if Day(a) != Day(b) then a.deadline - b.deadline
    else if StartMinute(a) != StartMinute(b) then StartMinute(a) - StartMinute(b)
    else EndMinute(a) - EndMinute(b)
  }

  function GoalRank(e: Entry): int {
    if e.kind == GoalItem then 1 else 0
  }

  /** The order of the past list as a key: day descending, non-goals first, start, end. */
  function PastKey(e: Entry): seq<int> {
    [-Day(e), GoalRank(e), StartMinute(e), EndMinute(e)]
  }

  /** The order of the upcoming list as a key: day ascending, start, end. */
  function UpcomingKey(e: Entry): seq<int> {
    [Day(e), StartMinute(e), EndMinute(e)]
  }

  /** Deadlines on different days compare as their days do. */
  lemma DeadlineOrder(a: Entry, b: Entry)
    ensures Day(a) < Day(b) ==> a.deadline < b.deadline
  {
    if Day(a) < Day(b) {
      assert a.deadline < (Day(a) + 1) * DayMs;
      assert Day(b) * DayMs <= b.deadline;
    }
  }

  lemma LexLe3(a: seq<int>, b: seq<int>)
    requires |a| == 3 && |b| == 3
    ensures LexLe(a, b) <==>
      a[0] < b[0] || (a[0] == b[0] && (a[1] < b[1] || (a[1] == b[1] && a[2] <= b[2])))
  {
    assert LexLe(a[2..], b[2..]) <==> a[2] <= b[2] by {
      assert a[2..][1..] == [];
    }
    assert a[1..][1..] == a[2..] && b[1..][1..] == b[2..];
  }

  lemma LexLe4(a: seq<int>, b: seq<int>)
    requires |a| == 4 && |b| == 4
    ensures LexLe(a, b) <==>
      a[0] < b[0] || (a[0] == b[0] && (a[1] < b[1] || (a[1] == b[1] &&
      (a[2] < b[2] || (a[2] == b[2] && a[3] <= b[3])))))
  {
    LexLe3(a[1..], b[1..]);
  }

  /** The past comparator orders exactly as the key: `Array.prototype.sort` with it is
      the stable sort by `PastKey`. */
  lemma PastCompareIsKeyOrder(a: Entry, b: Entry)
    ensures PastCompare(a, b) <= 0 <==> LexLe(PastKey(a), PastKey(b))
    ensures PastCompare(a, b) == 0 <==> PastKey(a) == PastKey(b)
  {
    DeadlineOrder(a, b);
    DeadlineOrder(b, a);
    LexLe4(PastKey(a), PastKey(b));
  }

  /** The upcoming comparator orders exactly as the key. */
  lemma UpcomingCompareIsKeyOrder(a: Entry, b: Entry)
    ensures UpcomingCompare(a, b) <= 0 <==> LexLe(UpcomingKey(a), UpcomingKey(b))
    ensures UpcomingCompare(a, b) == 0 <==> UpcomingKey(a) == UpcomingKey(b)
  {
    DeadlineOrder(a, b);
    DeadlineOrder(b, a);
    LexLe3(UpcomingKey(a), UpcomingKey(b));
  }

  /** The past list in the order its comparator gives, stated field by field. */
  predicate PastBefore(a: Entry, b: Entry) {
    Day(a) > Day(b) || (Day(a) == Day(b) &&
      (GoalRank(a) < GoalRank(b) || (GoalRank(a) == GoalRank(b) &&
        (StartMinute(a) < StartMinute(b) || (StartMinute(a) == StartMinute(b) && EndMinute(a) <= EndMinute(b))))))
  }

  /** The upcoming list in the order its comparator gives, stated field by field. */
  predicate UpcomingBefore(a: Entry, b: Entry) {
    Day(a) < Day(b) || (Day(a) == Day(b) &&
      (StartMinute(a) < StartMinute(b) || (StartMinute(a) == StartMinute(b) && EndMinute(a) <= EndMinute(b))))
  }

  // ---------------------------------------------------------------------------
  // The past list

  /** The instant an item is over: its day at its end time, or at 23:59 when untimed. */
  function EndInstant(day: int, end: Option<int>): int {
    (day * 1440 + (if end.Some? then end.value else 23 * 60 + 59)) * MinuteMs
  }

  predicate EndedBefore(day: int, end: Option<int>, now: int) {
    EndInstant(day, end) < now
  }

  /** An activity's line: its deadline is the start of its day. */
  function ActivityEntry(a: Activity): Entry {
    Entry(ActivityItem, a.id, a.title, a.date * DayMs, a.start, a.end)
  }

  /** A meeting's line: its deadline is the start of its day. */
  function MeetingEntry(m: Meeting): Entry {
    Entry(MeetingItem, m.id, m.title, m.date * DayMs, m.start, m.end)
  }

  /** A finished timeline's line: its deadline is the instant the timeline ended. */
  function PastGoalEntry(g: Goal, t: Timeline): Entry {
    Entry(GoalItem, g.id, GoalTimelineTitle(g, t), EndInstant(t.endDate, t.end), t.start, t.end)
  }

  function PastActivities(acts: seq<Activity>, now: int): seq<Entry> {
    FlatMap(acts, (a: Activity) => if EndedBefore(a.date, a.end, now) then [ActivityEntry(a)] else [])
  }

  function PastTimelines(g: Goal, ts: seq<Timeline>, now: int): seq<Entry> {
    FlatMap(ts, (t: Timeline) => if EndedBefore(t.endDate, t.end, now) then [PastGoalEntry(g, t)] else [])
  }

  function PastGoals(goals: seq<Goal>, now: int): seq<Entry> {
    FlatMap(goals, (g: Goal) => PastTimelines(g, g.timelines, now))
  }

  function PastTeamMeetings(ms: seq<Meeting>, now: int): seq<Entry> {
    FlatMap(ms, (m: Meeting) => if EndedBefore(m.date, m.end, now) then [MeetingEntry(m)] else [])
  }

  function PastMeetings(teams: seq<Team>, now: int): seq<Entry> {
    FlatMap(teams, (tm: Team) => PastTeamMeetings(tm.meetings, now))
  }

  /** `getPastItems`: finished activities, timelines and meetings, sorted. */
  function PastItems(now: int, acts: seq<Activity>, goals: seq<Goal>, teams: seq<Team>): seq<Entry> {
    SortBy(PastActivities(acts, now) + PastGoals(goals, now) + PastMeetings(teams, now), PastKey)
  }

  lemma PastTimelinesMembers(g: Goal, now: int, e: Entry)
    ensures e in PastTimelines(g, g.timelines, now) <==>
      exists t | t in g.timelines :: EndedBefore(t.endDate, t.end, now) && e == PastGoalEntry(g, t)
  {
    FlatMapMembers(g.timelines, (t: Timeline) => if EndedBefore(t.endDate, t.end, now) then [PastGoalEntry(g, t)] else [], e);
  }

  lemma PastTeamMeetingsMembers(tm: Team, now: int, e: Entry)
    ensures e in PastTeamMeetings(tm.meetings, now) <==>
      exists m | m in tm.meetings :: EndedBefore(m.date, m.end, now) && e == MeetingEntry(m)
  {
    FlatMapMembers(tm.meetings, (m: Meeting) => if EndedBefore(m.date, m.end, now) then [MeetingEntry(m)] else [], e);
  }

  /** The past list holds exactly the items whose end instant is before now. */
  lemma PastItemsMembers(now: int, acts: seq<Activity>, goals: seq<Goal>, teams: seq<Team>, e: Entry)
    ensures e in PastItems(now, acts, goals, teams) <==>
      (exists a | a in acts :: EndedBefore(a.date, a.end, now) && e == ActivityEntry(a))
      || (exists g, t | g in goals && t in g.timelines :: EndedBefore(t.endDate, t.end, now) && e == PastGoalEntry(g, t))
      || (exists tm, m | tm in teams && m in tm.meetings :: EndedBefore(m.date, m.end, now) && e == MeetingEntry(m))
  {
    var all := PastActivities(acts, now) + PastGoals(goals, now) + PastMeetings(teams, now);
    SortByMembers(all, PastKey, e);
    FlatMapMembers(acts, (a: Activity) => if EndedBefore(a.date, a.end, now) then [ActivityEntry(a)] else [], e);
    FlatMapMembers(goals, (g: Goal) => PastTimelines(g, g.timelines, now), e);
    forall g | g in goals {
      PastTimelinesMembers(g, now, e);
    }
    FlatMapMembers(teams, (tm: Team) => PastTeamMeetings(tm.meetings, now), e);
    forall tm | tm in teams {
      PastTeamMeetingsMembers(tm, now, e);
    }
  }

  /** The past list is ordered latest day first, non-goals before goals on a day, then
      by start and end minute, and it is a rearrangement of the collected items. */
  lemma {:induction false} PastItemsOrdered(now: int, acts: seq<Activity>, goals: seq<Goal>, teams: seq<Team>)
    ensures var r := PastItems(now, acts, goals, teams);
      multiset(r) == multiset(PastActivities(acts, now) + PastGoals(goals, now) + PastMeetings(teams, now))
      && forall i, j | 0 <= i < j < |r| :: PastBefore(r[i], r[j])
  {
    var all := PastActivities(acts, now) + PastGoals(goals, now) + PastMeetings(teams, now);
    SortBySorted(all, PastKey);
    PastSortedBefore(SortBy(all, PastKey));
  }

  lemma PastSortedBefore(r: seq<Entry>)
    requires SortedBy(r, PastKey)
    ensures forall i, j | 0 <= i < j < |r| :: PastBefore(r[i], r[j])
  {
    forall i, j | 0 <= i < j < |r| ensures PastBefore(r[i], r[j]) {
      LexLe4(PastKey(r[i]), PastKey(r[j]));
    }
  }

  /** Within one day and one group, an untimed item (sentinel 9999) comes after every
      timed one, as long as real start minutes stay below the sentinel. */
  lemma UntimedLastInPast(r: seq<Entry>, i: int, j: int)
    requires forall k | 0 <= k < |r| :: r[k].start.Some? ==> r[k].start.value < 9999
    requires forall x, y | 0 <= x < y < |r| :: PastBefore(r[x], r[y])
    requires 0 <= i < j < |r| && Day(r[i]) == Day(r[j]) && GoalRank(r[i]) == GoalRank(r[j])
    requires r[i].start.None?
    ensures r[j].start.None?
  {
    assert PastBefore(r[i], r[j]);
  }

  // ---------------------------------------------------------------------------
  // The upcoming list

  /** Days from today to 30 days ahead: the day is not before today and its start is no
      later than the instant 30 days from now. */
  predicate UpcomingDay(day: int, now: int) {
    day >= now / DayMs && day * DayMs <= now + 30 * DayMs
  }

  /** One day of an upcoming timeline: the day at the timeline's start time (or midnight). */
  function UpcomingGoalEntry(g: Goal, t: Timeline, day: int): Entry {
    Entry(GoalItem, g.id, GoalTimelineTitle(g, t), (day * 1440 + (if t.start.Some? then t.start.value else 0)) * MinuteMs, t.start, t.end)
  }

  /** The lines for days `lo` through `hi` of a timeline, in day order. */
  function UpcomingGoalDays(g: Goal, t: Timeline, lo: int, hi: int): (r: seq<Entry>)
    ensures |r| == if lo <= hi then hi - lo + 1 else 0
    ensures forall k | 0 <= k < |r| :: r[k] == UpcomingGoalEntry(g, t, lo + k)
    decreases hi - lo
  {
    if lo > hi then [] else [UpcomingGoalEntry(g, t, lo)] + UpcomingGoalDays(g, t, lo + 1, hi)
  }

  function FirstUpcomingDay(t: Timeline, now: int): int {
    if t.startDate >= now / DayMs then t.startDate else now / DayMs
  }

  function LastUpcomingDay(t: Timeline, now: int): int {
    var last := (now + 30 * DayMs) / DayMs;
    if t.endDate <= last then t.endDate else last
  }

  /** The days a timeline contributes are exactly its upcoming days in its own range. */
  lemma UpcomingTimelineDays(t: Timeline, now: int, d: int)
    ensures (t.startDate <= d <= t.endDate && UpcomingDay(d, now)) <==>
      FirstUpcomingDay(t, now) <= d <= LastUpcomingDay(t, now)
  {
    var h := now + 30 * DayMs;
    assert h / DayMs * DayMs <= h < (h / DayMs + 1) * DayMs;
    assert d * DayMs <= h <==> d <= h / DayMs;
  }

  /** The upcoming-goal loop: walks the days from the timeline's start while they are
      within its end and the 30-day horizon, keeping those not before today. */
  method ExpandUpcomingTimeline(g: Goal, t: Timeline, now: int) returns (entries: seq<Entry>)
    ensures entries == UpcomingGoalDays(g, t, FirstUpcomingDay(t, now), LastUpcomingDay(t, now))
  {
    var today := now / DayMs;
    var horizon := now + 30 * DayMs;
    var first := FirstUpcomingDay(t, now);
    entries := [];
    var d := t.startDate;
    while d <= t.endDate && d * DayMs <= horizon
      invariant t.startDate <= d && (d == t.startDate || d <= t.endDate + 1)
      invariant forall x | t.startDate <= x < d :: x <= t.endDate && x * DayMs <= horizon
      invariant |entries| == if d > first then d - first else 0
      invariant forall k | 0 <= k < |entries| :: entries[k] == UpcomingGoalEntry(g, t, first + k)
      decreases t.endDate - d
    {
      if d >= today {
        entries := entries + [UpcomingGoalEntry(g, t, d)];
      }
      d := d + 1;
    }
    var last := LastUpcomingDay(t, now);
    assert horizon / DayMs * DayMs <= horizon < (horizon / DayMs + 1) * DayMs;
    if d > t.startDate {
      assert d - 1 <= t.endDate && (d - 1) * DayMs <= horizon;
      assert d - 1 == last;
    } else {
      assert last < first;
    }
    var spec := UpcomingGoalDays(g, t, first, last);
    assert |entries| == |spec|;
  }

  function UpcomingActivities(acts: seq<Activity>, now: int): seq<Entry> {
    FlatMap(acts, (a: Activity) => if UpcomingDay(a.date, now) then [ActivityEntry(a)] else [])
  }

  function UpcomingTimelines(g: Goal, ts: seq<Timeline>, now: int): seq<Entry> {
    FlatMap(ts, (t: Timeline) => UpcomingGoalDays(g, t, FirstUpcomingDay(t, now), LastUpcomingDay(t, now)))
  }

  function UpcomingGoals(goals: seq<Goal>, now: int): seq<Entry> {
    FlatMap(goals, (g: Goal) => UpcomingTimelines(g, g.timelines, now))
  }

  function UpcomingTeamMeetings(ms: seq<Meeting>, now: int): seq<Entry> {
    FlatMap(ms, (m: Meeting) => if UpcomingDay(m.date, now) then [MeetingEntry(m)] else [])
  }

  function UpcomingMeetings(teams: seq<Team>, now: int): seq<Entry> {
    FlatMap(teams, (tm: Team) => UpcomingTeamMeetings(tm.meetings, now))
  }

  /** `getUpcomingItems`: activities and meetings of the next 30 days and one line per
      upcoming day of each timeline, sorted. */
  function UpcomingItems(now: int, acts: seq<Activity>, goals: seq<Goal>, teams: seq<Team>): seq<Entry> {
    SortBy(UpcomingActivities(acts, now) + UpcomingGoals(goals, now) + UpcomingMeetings(teams, now), UpcomingKey)
  }

  lemma UpcomingGoalDaysMembers(g: Goal, t: Timeline, now: int, e: Entry)
    ensures e in UpcomingGoalDays(g, t, FirstUpcomingDay(t, now), LastUpcomingDay(t, now)) <==>
      exists d | t.startDate <= d <= t.endDate :: UpcomingDay(d, now) && e == UpcomingGoalEntry(g, t, d)
  {
    var lo, hi := FirstUpcomingDay(t, now), LastUpcomingDay(t, now);
    var r := UpcomingGoalDays(g, t, lo, hi);
    if e in r {
      var k :| 0 <= k < |r| && r[k] == e;
      UpcomingTimelineDays(t, now, lo + k);
    }
    if exists d | t.startDate <= d <= t.endDate :: UpcomingDay(d, now) && e == UpcomingGoalEntry(g, t, d) {
      var d :| t.startDate <= d <= t.endDate && UpcomingDay(d, now) && e == UpcomingGoalEntry(g, t, d);
      UpcomingTimelineDays(t, now, d);
      assert r[d - lo] == e;
    }
  }

  lemma UpcomingTimelinesMembers(g: Goal, now: int, e: Entry)
    ensures e in UpcomingTimelines(g, g.timelines, now) <==>
      exists t, d | t in g.timelines && t.startDate <= d <= t.endDate :: UpcomingDay(d, now) && e == UpcomingGoalEntry(g, t, d)
  {
    FlatMapMembers(g.timelines, (t: Timeline) => UpcomingGoalDays(g, t, FirstUpcomingDay(t, now), LastUpcomingDay(t, now)), e);
    forall t | t in g.timelines {
      UpcomingGoalDaysMembers(g, t, now, e);
    }
  }

  lemma UpcomingTeamMeetingsMembers(tm: Team, now: int, e: Entry)
    ensures e in UpcomingTeamMeetings(tm.meetings, now) <==>
      exists m | m in tm.meetings :: UpcomingDay(m.date, now) && e == MeetingEntry(m)
  {
    FlatMapMembers(tm.meetings, (m: Meeting) => if UpcomingDay(m.date, now) then [MeetingEntry(m)] else [], e);
  }

  /** The upcoming list holds exactly the activities and meetings dated within the next
      30 days and one line for each such day of each timeline. */
  lemma UpcomingItemsMembers(now: int, acts: seq<Activity>, goals: seq<Goal>, teams: seq<Team>, e: Entry)
    ensures e in UpcomingItems(now, acts, goals, teams) <==>
      (exists a | a in acts :: UpcomingDay(a.date, now) && e == ActivityEntry(a))
      || (exists g, t, d | g in goals && t in g.timelines && t.startDate <= d <= t.endDate ::
            UpcomingDay(d, now) && e == UpcomingGoalEntry(g, t, d))
      || (exists tm, m | tm in teams && m in tm.meetings :: UpcomingDay(m.date, now) && e == MeetingEntry(m))
  {
    var all := UpcomingActivities(acts, now) + UpcomingGoals(goals, now) + UpcomingMeetings(teams, now);
    SortByMembers(all, UpcomingKey, e);
    FlatMapMembers(acts, (a: Activity) => if UpcomingDay(a.date, now) then [ActivityEntry(a)] else [], e);
    FlatMapMembers(goals, (g: Goal) => UpcomingTimelines(g, g.timelines, now), e);
    forall g | g in goals {
      UpcomingTimelinesMembers(g, now, e);
    }
    FlatMapMembers(teams, (tm: Team) => UpcomingTeamMeetings(tm.meetings, now), e);
    forall tm | tm in teams {
      UpcomingTeamMeetingsMembers(tm, now, e);
    }
  }

  /** The upcoming list is ordered earliest day first, then by start and end minute,
      and it is a rearrangement of the collected items. */
  lemma {:induction false} UpcomingItemsOrdered(now: int, acts: seq<Activity>, goals: seq<Goal>, teams: seq<Team>)
    ensures var r := UpcomingItems(now, acts, goals, teams);
      multiset(r) == multiset(UpcomingActivities(acts, now) + UpcomingGoals(goals, now) + UpcomingMeetings(teams, now))
      && forall i, j | 0 <= i < j < |r| :: UpcomingBefore(r[i], r[j])
  {
    var all := UpcomingActivities(acts, now) + UpcomingGoals(goals, now) + UpcomingMeetings(teams, now);
    SortBySorted(all, UpcomingKey);
    UpcomingSortedBefore(SortBy(all, UpcomingKey));
  }

  lemma UpcomingSortedBefore(r: seq<Entry>)
    requires SortedBy(r, UpcomingKey)
    ensures forall i, j | 0 <= i < j < |r| :: UpcomingBefore(r[i], r[j])
  {
    forall i, j | 0 <= i < j < |r| ensures UpcomingBefore(r[i], r[j]) {
      LexLe3(UpcomingKey(r[i]), UpcomingKey(r[j]));
    }
  }

  /** On one day an untimed item comes after every timed one. */
  lemma UntimedLastInUpcoming(r: seq<Entry>, i: int, j: int)
    requires forall k | 0 <= k < |r| :: r[k].start.Some? ==> r[k].start.value < 9999
    requires forall x, y | 0 <= x < y < |r| :: UpcomingBefore(r[x], r[y])
    requires 0 <= i < j < |r| && Day(r[i]) == Day(r[j]) && r[i].start.None?
    ensures r[j].start.None?
  {
    assert UpcomingBefore(r[i], r[j]);
  }

  // ---------------------------------------------------------------------------
  // The mini calendar

  datatype MonthPart = PrevMonthDay | CurrentMonthDay | NextMonthDay

  /** A cell of the mini calendar: a day number and the month it belongs to. */
  datatype Cell = Cell(date: int, month: MonthPart)

  /** The cell at position `k` of a grid that starts on weekday `lead`, for a month of
      `days` days after one of `prevDays` days. */
  function CellAt(lead: nat, days: nat, prevDays: nat, k: int): Cell {
    if k < lead then Cell(prevDays - lead + 1 + k, PrevMonthDay)
    else if k < lead + days then Cell(k - lead + 1, CurrentMonthDay)
    else Cell(k - lead - days + 1, NextMonthDay)
  }

  /** The weekday of the first of the month. */
  function LeadingDays(y: int, m: int): (n: nat)
    requires 1 <= m <= 12
    ensures n < 7
  {
    Weekday(DayOrdinal(y, m, 1))
  }

  function PrevMonthLength(y: int, m: int): (n: nat)
    requires 1 <= m <= 12
    ensures 28 <= n <= 31
  {
    var prev := PrevMonth(y, m);
    DaysInMonth(prev.0, prev.1)
  }

  /** The cell at position `k` (0..41) of the grid for month `m` of year `y`. */
  function GridCell(y: int, m: int, k: int): Cell
    requires 1 <= m <= 12
  {
    CellAt(LeadingDays(y, m), DaysInMonth(y, m), PrevMonthLength(y, m), k)
  }

  /** The trailing `lead` days of a previous month of `count` days. */
  method PrevMonthCells(lead: nat, count: nat) returns (cells: seq<Cell>)
    ensures |cells| == lead
    ensures forall k | 0 <= k < lead :: cells[k] == Cell(count - lead + 1 + k, PrevMonthDay)
  {
    cells := [];
    var i := count - lead + 1;
    while i <= count
      invariant count - lead + 1 <= i <= count + 1
      invariant |cells| == i - (count - lead + 1)
      invariant forall k | 0 <= k < |cells| :: cells[k] == Cell(count - lead + 1 + k, PrevMonthDay)
    {
      cells := cells + [Cell(i, PrevMonthDay)];
      i := i + 1;
    }
  }

  /** Days 1 through `days` of one month part. */
  method NumberedCells(days: int, part: MonthPart) returns (cells: seq<Cell>)
    ensures |cells| == if days > 0 then days else 0
    ensures forall k | 0 <= k < |cells| :: cells[k] == Cell(k + 1, part)
  {
    cells := [];
    var i := 1;
    while i <= days
      invariant 1 <= i <= (if days > 0 then days else 0) + 1
      invariant |cells| == i - 1
      invariant forall k | 0 <= k < |cells| :: cells[k] == Cell(k + 1, part)
    {
      cells := cells + [Cell(i, part)];
      i := i + 1;
    }
  }

  /** Cuts 42 cells into six weeks of seven. */
  method Weeks(all: seq<Cell>) returns (weeks: seq<seq<Cell>>)
    requires |all| == 42
    ensures |weeks| == 6
    ensures forall w | 0 <= w < 6 :: weeks[w] == all[7 * w..7 * w + 7]
  {
    weeks := [];
    var start := 0;
    while start < |all|
      invariant 0 <= start <= 42 && start % 7 == 0
      invariant |weeks| == start / 7
      invariant forall w | 0 <= w < |weeks| :: weeks[w] == all[7 * w..7 * w + 7]
    {
      weeks := weeks + [all[start..start + 7]];
      start := start + 7;
    }
  }

  /** The grid construction: trailing days of the previous month, the days of this one,
      days of the next one up to 42 cells, then cut into weeks of seven. */
  method MonthGrid(y: int, m: int) returns (weeks: seq<seq<Cell>>)
    requires 1 <= m <= 12
    ensures |weeks| == 6
    ensures forall w | 0 <= w < 6 :: |weeks[w]| == 7
    ensures forall w, i | 0 <= w < 6 && 0 <= i < 7 :: weeks[w][i] == GridCell(y, m, 7 * w + i)
  {
    var lead := LeadingDays(y, m);
    var days := DaysInMonth(y, m);
    var count := PrevMonthLength(y, m);
    var prevDays: seq<Cell> := [];
    if lead > 0 {
      prevDays := PrevMonthCells(lead, count);
    }
    var currentDays := NumberedCells(days, CurrentMonthDay);
    var nextDays := NumberedCells(42 - |prevDays| - |currentDays|, NextMonthDay);
    var all := prevDays + currentDays + nextDays;
    assert |all| == 42;
    assert forall k | 0 <= k < 42 :: all[k] == CellAt(lead, days, count, k);
    weeks := Weeks(all);
    forall w, i | 0 <= w < 6 && 0 <= i < 7 ensures weeks[w][i] == GridCell(y, m, 7 * w + i) {
      assert weeks[w][i] == all[7 * w + i];
    }
  }

  /** The leading cells are the last `lead` days of the previous month, ascending and
      ending on its last day; the month's own days follow at positions `lead`..; the
      rest are days 1, 2, ... of the next month, and all 42 positions are filled. */
  lemma GridLayout(y: int, m: int)
    requires 1 <= m <= 12
    ensures var lead := Weekday(DayOrdinal(y, m, 1));
      var days := DaysInMonth(y, m);
      var prev := PrevMonth(y, m);
      lead + days <= 42
      && (lead > 0 ==> GridCell(y, m, lead - 1) == Cell(DaysInMonth(prev.0, prev.1), PrevMonthDay))
      && (forall k | 0 <= k < lead :: GridCell(y, m, k).month == PrevMonthDay && GridCell(y, m, k).date >= 1)
      && (forall k | 0 < k < lead :: GridCell(y, m, k).date == GridCell(y, m, k - 1).date + 1)
      && (forall d | 1 <= d <= days :: GridCell(y, m, lead + d - 1) == Cell(d, CurrentMonthDay))
      && (forall k | 0 <= k < 42 :: GridCell(y, m, k).month == CurrentMonthDay <==> lead <= k < lead + days)
      && (forall k | lead + days <= k < 42 :: GridCell(y, m, k) == Cell(k - lead - days + 1, NextMonthDay))
  {
  }

  lemma ModSeven(x: int, b: int)
    ensures (x % 7 + b) % 7 == (x + b) % 7
  {
    var q := x / 7;
    assert x == 7 * q + x % 7;
    assert x + b == 7 * q + (x % 7 + b);
  }

  /** A day of the month sits in the column of its weekday (Sunday first). */
  lemma GridColumnIsWeekday(y: int, m: int, d: int)
    requires 1 <= m <= 12 && 1 <= d <= DaysInMonth(y, m)
    ensures (Weekday(DayOrdinal(y, m, 1)) + d - 1) % 7 == Weekday(DayOrdinal(y, m, d))
  {
    var o := DayOrdinal(y, m, 1);
    DayOrdinalInMonth(y, m, d);
    ModSeven(o + 4, d - 1);
  }

  // ---------------------------------------------------------------------------
  // Goal days

  /** The days `lo` through `hi`. */
  function DayRange(lo: int, hi: int): (r: set<int>)
    ensures forall d :: d in r <==> lo <= d <= hi
    decreases hi - lo
  {
    if lo > hi then {} else DayRange(lo, hi - 1) + {hi}
  }

  function TimelineDays(ts: seq<Timeline>): set<int> {
    if ts == [] then {} else TimelineDays(ts[..|ts| - 1]) + DayRange(ts[|ts| - 1].startDate, ts[|ts| - 1].endDate)
  }

  /** The days marked on the mini calendar as lying within some goal timeline. */
  function GoalDays(goals: seq<Goal>): set<int> {
    if goals == [] then {} else GoalDays(goals[..|goals| - 1]) + TimelineDays(goals[|goals| - 1].timelines)
  }

  lemma {:induction false} TimelineDaysMembers(ts: seq<Timeline>, d: int)
    ensures d in TimelineDays(ts) <==> exists t | t in ts :: t.startDate <= d <= t.endDate
  {
    if ts != [] {
      TimelineDaysMembers(ts[..|ts| - 1], d);
      assert ts == ts[..|ts| - 1] + [ts[|ts| - 1]];
    }
  }

  /** A day is marked exactly when it lies from the start through the end of some timeline. */
  lemma {:induction false} GoalDaysMembers(goals: seq<Goal>, d: int)
    ensures d in GoalDays(goals) <==>
      exists g, t | g in goals && t in g.timelines :: t.startDate <= d <= t.endDate
  {
    if goals != [] {
      var init, last := goals[..|goals| - 1], goals[|goals| - 1];
      GoalDaysMembers(init, d);
      TimelineDaysMembers(last.timelines, d);
      assert goals == init + [last];
      if exists g, t | g in goals && t in g.timelines :: t.startDate <= d <= t.endDate {
        var g, t :| g in goals && t in g.timelines && t.startDate <= d <= t.endDate;
        if g != last {
          assert g in init;
        }
      }
    }
  }

  /** The day-by-day walk over one timeline, adding each day from its start to its end. */
  method AddTimelineDays(dates: set<int>, t: Timeline) returns (r: set<int>)
    ensures r == dates + DayRange(t.startDate, t.endDate)
  {
    r := dates;
    var d := t.startDate;
    while d <= t.endDate
      invariant t.startDate <= d && (d == t.startDate || d <= t.endDate + 1)
      invariant r == dates + DayRange(t.startDate, d - 1)
      decreases t.endDate - d
    {
      r := r + {d};
      d := d + 1;
    }
    if d == t.startDate {
      assert DayRange(t.startDate, t.endDate) == {};
    }
  }

  /** The effect that fills the goal-day set from every timeline of every goal. */
  method CollectGoalDates(goals: seq<Goal>) returns (dates: set<int>)
    ensures dates == GoalDays(goals)
  {
    dates := {};
    var i := 0;
    while i < |goals|
      invariant 0 <= i <= |goals|
      invariant dates == GoalDays(goals[..i])
    {
      var ts := goals[i].timelines;
      var j := 0;
      while j < |ts|
        invariant 0 <= j <= |ts|
        invariant dates == GoalDays(goals[..i]) + TimelineDays(ts[..j])
      {
        dates := AddTimelineDays(dates, ts[j]);
        assert ts[..j + 1][..j] == ts[..j];
        j := j + 1;
      }
      assert ts[..j] == ts;
      assert goals[..i + 1][..i] == goals[..i];
      i := i + 1;
    }
    assert goals[..i] == goals;
  }

  // ---------------------------------------------------------------------------
  // The most urgent item of a day

  /** An item of a day with the urgency its dot is coloured by. */
  datatype Flagged = Flagged(kind: ItemKind, id: int, title: string, urgency: string)

  /** The urgency ranking; an unknown urgency ranks 0. */
  function UrgencyPriority(u: string): (p: nat)
    ensures p <= 5
    ensures p == 0 <==> u !in {"urgent", "high", "medium-high", "medium", "low"}
  {
    if u == "urgent" then 5
    else if u == "high" then 4
    else if u == "medium-high" then 3
    else if u == "medium" then 2
    else if u == "low" then 1
    else 0
  }

  function Priority(x: Flagged): nat {
    UrgencyPriority(x.urgency)
  }

  /** The position the `reduce` keeps: a later item replaces the one kept only when it
      ranks strictly higher, so the first of the highest-ranked items wins. */
  function MostUrgentIndex(items: seq<Flagged>): (k: nat)
    requires items != []
    ensures k < |items|
    ensures forall j | 0 <= j < |items| :: Priority(items[j]) <= Priority(items[k])
    ensures forall j | 0 <= j < k :: Priority(items[j]) < Priority(items[k])
  {
    if |items| == 1 then 0
    else
      var k := MostUrgentIndex(items[..|items| - 1]);
      if Priority(items[|items| - 1]) > Priority(items[k]) then |items| - 1 else k
  }

  function DayActivities(day: int, acts: seq<Activity>): seq<Flagged> {
    FlatMap(acts, (a: Activity) => if a.date == day then [Flagged(ActivityItem, a.id, a.title, a.urgency)] else [])
  }

  function DayTeamMeetings(day: int, ms: seq<Meeting>): seq<Flagged> {
    FlatMap(ms, (m: Meeting) => if m.date == day then [Flagged(MeetingItem, m.id, m.title, "medium-high")] else [])
  }

  /** The day's activities in order, then its meetings, every meeting ranked "medium-high". */
  function DayItems(day: int, acts: seq<Activity>, teams: seq<Team>): seq<Flagged> {
    DayActivities(day, acts) + FlatMap(teams, (tm: Team) => DayTeamMeetings(day, tm.meetings))
  }

  /** `getMostUrgentActivityForDate`: nothing for a cell outside the shown month or a day
      without items; otherwise a highest-ranked item of the day, the earliest among equals. */
  function MostUrgentForCell(y: int, m: int, cell: Cell, acts: seq<Activity>, teams: seq<Team>): (r: Option<Flagged>)
    requires 1 <= m <= 12
    ensures cell.month != CurrentMonthDay ==> r.None?
    ensures cell.month == CurrentMonthDay ==>
      var items := DayItems(DayOrdinal(y, m, cell.date), acts, teams);
      (r.None? <==> items == [])
      && (r.Some? ==> (exists k | 0 <= k < |items| :: (r.value == items[k]
            && (forall j | 0 <= j < |items| :: Priority(items[j]) <= Priority(items[k]))
            && (forall j | 0 <= j < k :: Priority(items[j]) < Priority(items[k])))))
  {
    if cell.month != CurrentMonthDay then None
    else
      var items := DayItems(DayOrdinal(y, m, cell.date), acts, teams);
      if items == [] then None else Some(items[MostUrgentIndex(items)])
  }

  lemma DayTeamMeetingsMembers(day: int, tm: Team, x: Flagged)
    ensures x in DayTeamMeetings(day, tm.meetings) <==>
      exists m | m in tm.meetings :: m.date == day && x == Flagged(MeetingItem, m.id, m.title, "medium-high")
  {
    FlatMapMembers(tm.meetings, (m: Meeting) => if m.date == day then [Flagged(MeetingItem, m.id, m.title, "medium-high")] else [], x);
  }

  /** The items of a day are exactly its activities and the meetings of every team on it. */
  lemma DayItemsMembers(day: int, acts: seq<Activity>, teams: seq<Team>, x: Flagged)
    ensures x in DayItems(day, acts, teams) <==>
      (exists a | a in acts :: a.date == day && x == Flagged(ActivityItem, a.id, a.title, a.urgency))
      || (exists tm, m | tm in teams && m in tm.meetings :: m.date == day && x == Flagged(MeetingItem, m.id, m.title, "medium-high"))
  {
    FlatMapMembers(acts, (a: Activity) => if a.date == day then [Flagged(ActivityItem, a.id, a.title, a.urgency)] else [], x);
    FlatMapMembers(teams, (tm: Team) => DayTeamMeetings(day, tm.meetings), x);
    forall tm | tm in teams {
      DayTeamMeetingsMembers(day, tm, x);
    }
  }

  // ---------------------------------------------------------------------------
  // Text formatting

  /** The hour shown on a 12-hour clock. */
  function DisplayHour(h: int): int {
    if h == 0 then 12 else if h > 12 then h - 12 else h
  }

  /** `formatTime`: `null` for an empty time; otherwise `parseInt` of the hours piece on a
      12-hour clock, the minutes piece as it is written ("undefined" when missing), and AM
      or PM; an hour that is not a number prints "NaN" and counts as AM. */
  function FormatTime(s: string): (r: Option<string>)
    ensures r.None? <==> s == ""
  {
    if s == "" then None
    else
      var hour := ParseInt(BeforeFirst(s, ':'));
      var minutes := if SecondPiece(s).Some? then SecondPiece(s).value else "undefined";
      var shown := if hour.Some? then IntToString(DisplayHour(hour.value)) else "NaN";
      var suffix := if hour.Some? && hour.value >= 12 then " PM" else " AM";
      Some(shown + ":" + minutes + suffix)
  }

  lemma FormatTimeOfPieces(s: string, hh: string, mm: string)
    requires s != [] && BeforeFirst(s, ':') == hh && SecondPiece(s) == Some(mm)
    requires hh != [] && AllDigits(hh)
    ensures FormatTime(s) == Some(IntToString(DisplayHour(DigitsValue(hh))) + ":" + mm +
      (if DigitsValue(hh) >= 12 then " PM" else " AM"))
  {
  }

  /** The four hour ranges of a 24-hour day, read from the hours piece. */
  lemma FormatTimeCases(s: string, hh: string, mm: string)
    requires s != [] && BeforeFirst(s, ':') == hh && SecondPiece(s) == Some(mm)
    requires hh != [] && AllDigits(hh) && DigitsValue(hh) < 24
    ensures var h := DigitsValue(hh);
      (h == 0 ==> FormatTime(s) == Some("12" + ":" + mm + " AM"))
      && (1 <= h < 12 ==> FormatTime(s) == Some(NatToString(h) + ":" + mm + " AM"))
      && (h == 12 ==> FormatTime(s) == Some("12" + ":" + mm + " PM"))
      && (12 < h ==> FormatTime(s) == Some(NatToString(h - 12) + ":" + mm + " PM"))
  {
    FormatTimeOfPieces(s, hh, mm);
    var h := DigitsValue(hh);
    assert NatToString(12) == "12";
    assert IntToString(DisplayHour(h)) == NatToString(DisplayHour(h));
  }

  /** A clock time `HH:MM` (optionally `:SS`) of a 24-hour day: hour 0 shows as 12 AM,
      1 to 11 as AM, 12 as 12 PM and 13 to 23 as the hour less 12 PM; the minute text
      is kept as written. */
  lemma FormatTimeOfClock(hh: string, mm: string, rest: string)
    requires hh != [] && AllDigits(hh) && DigitsValue(hh) < 24
    requires ':' !in mm && (rest == [] || rest[0] == ':')
    ensures var h := DigitsValue(hh);
      var r := FormatTime(hh + ":" + mm + rest);
      (h == 0 ==> r == Some("12" + ":" + mm + " AM"))
      && (1 <= h < 12 ==> r == Some(NatToString(h) + ":" + mm + " AM"))
      && (h == 12 ==> r == Some("12" + ":" + mm + " PM"))
      && (12 < h ==> r == Some(NatToString(h - 12) + ":" + mm + " PM"))
  {
    assert ':' !in hh by {
      assert !IsDigit(':');
    }
    ClockPieces(hh, mm, rest);
    FormatTimeCases(hh + ":" + mm + rest, hh, mm);
  }

  /** JavaScript's `a % 10`, which takes the sign of the dividend. */
  function JsRem10(a: int): (r: int)
    ensures -10 < r < 10 && (a >= 0 ==> r >= 0) && (a < 0 ==> r <= 0)
  {
    if a >= 0 then a % 10 else -((-a) % 10)
  }

  /** The English ordinal suffix `getOrdinal` appends: "th" for 4 through 20, otherwise
      by the last digit. */
  function OrdinalSuffix(day: int): (s: string)
    ensures 1 <= day <= 31 ==>
      (s == "st" <==> day in {1, 21, 31})
      && (s == "nd" <==> day in {2, 22})
      && (s == "rd" <==> day in {3, 23})
      && (s == "th" <==> day !in {1, 2, 3, 21, 22, 23, 31})
  {
    if day > 3 && day < 21 then "th"
    else
      var r := JsRem10(day);
      if r == 1 then "st" else if r == 2 then "nd" else if r == 3 then "rd" else "th"
  }

  /** `getOrdinal`: the day number followed by its suffix. */
  function Ordinal(day: int): string
  {
    IntToString(day) + OrdinalSuffix(day)
  }
}
