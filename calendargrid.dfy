/** The month calendar's timed grid: one column per day of the month, 24 hour rows,
    the activities and meetings of each day placed by their times and stacked by
    overlap, and the goal timelines of the month drawn as blocks across days.
    Vertical positions are kept in minutes; the 56-pixels-per-hour scaling is not modelled. */
module CalendarGrid {
  import opened Common
  import opened Planner
  import opened Sorting
  import opened Calendar
  import Sidebar

  /** Where an item sits in its day column: start minute and length in minutes. */
  datatype TimeSpan = TimeSpan(start: int, duration: int)

  /** `getActivityTimeSpan` / `getMeetingTimeSpan`: an item missing a time is drawn for
      one hour from midnight; a timed one from its start for its length, never under 30 minutes. */
  function ItemTimeSpan(start: Option<int>, end: Option<int>): (s: TimeSpan)
    ensures !Timed(start, end) ==> s == TimeSpan(0, 60)
    ensures Timed(start, end) ==>
      (s.start == start.value && s.duration >= 30 && s.duration >= end.value - start.value
       && (s.duration == 30 || s.duration == end.value - start.value))
  {
    if !Timed(start, end) then TimeSpan(0, 60)
    else
      var length := end.value - start.value;
      TimeSpan(start.value, if length > 30 then length else 30)
  }

  /** Two placed items share some minute of the column. */
  predicate SpansMeet(a: TimeSpan, b: TimeSpan) {
    a.start < b.start + b.duration && a.start + a.duration > b.start
  }

  datatype BlockKind = ActivityBlock | MeetingBlock

  /** An item of a day column. */
  datatype DayBlock = DayBlock(kind: BlockKind, id: int, title: string, createdAt: int, span: TimeSpan)

  function ActivityBlockOf(a: Activity): DayBlock {
    DayBlock(ActivityBlock, a.id, a.title, a.createdAt, ItemTimeSpan(a.start, a.end))
  }

  function MeetingBlockOf(m: Meeting): DayBlock {
    DayBlock(MeetingBlock, m.id, m.title, m.createdAt, ItemTimeSpan(m.start, m.end))
  }

  function CreationKey(b: DayBlock): seq<int> {
    [b.createdAt]
  }

  function DayActivityBlocks(day: int, acts: seq<Activity>): seq<DayBlock> {
    FlatMap(acts, (a: Activity) => if a.date == day then [ActivityBlockOf(a)] else [])
  }

  function DayTeamBlocks(day: int, ms: seq<Meeting>): seq<DayBlock> {
    FlatMap(ms, (m: Meeting) => if m.date == day then [MeetingBlockOf(m)] else [])
  }

  /** The items of one day column: its activities, then its meetings, sorted by creation time. */
  function DayBlocks(day: int, acts: seq<Activity>, teams: seq<Team>): seq<DayBlock> {
    SortBy(DayActivityBlocks(day, acts) + FlatMap(teams, (tm: Team) => DayTeamBlocks(day, tm.meetings)), CreationKey)
  }

  lemma DayTeamBlocksMembers(day: int, tm: Team, b: DayBlock)
    ensures b in DayTeamBlocks(day, tm.meetings) <==> exists m | m in tm.meetings :: m.date == day && b == MeetingBlockOf(m)
  {
    FlatMapMembers(tm.meetings, (m: Meeting) => if m.date == day then [MeetingBlockOf(m)] else [], b);
  }

  /** A day column shows exactly the activities and meetings dated that day, oldest first. */
  lemma DayBlocksContents(day: int, acts: seq<Activity>, teams: seq<Team>, b: DayBlock)
    ensures b in DayBlocks(day, acts, teams) <==>
      (exists a | a in acts :: a.date == day && b == ActivityBlockOf(a))
      || (exists tm, m | tm in teams && m in tm.meetings :: m.date == day && b == MeetingBlockOf(m))
    ensures var r := DayBlocks(day, acts, teams);
      forall i, j | 0 <= i < j < |r| :: r[i].createdAt <= r[j].createdAt
  {
    var all := DayActivityBlocks(day, acts) + FlatMap(teams, (tm: Team) => DayTeamBlocks(day, tm.meetings));
    SortByMembers(all, CreationKey, b);
    SortBySorted(all, CreationKey);
    FlatMapMembers(acts, (a: Activity) => if a.date == day then [ActivityBlockOf(a)] else [], b);
    FlatMapMembers(teams, (tm: Team) => DayTeamBlocks(day, tm.meetings), b);
    forall tm | tm in teams {
      DayTeamBlocksMembers(day, tm, b);
    }
    var r := DayBlocks(day, acts, teams);
    forall i, j | 0 <= i < j < |r| ensures r[i].createdAt <= r[j].createdAt {
      assert LexLe(CreationKey(r[i]), CreationKey(r[j]));
      LexLeHead(CreationKey(r[i]), CreationKey(r[j]));
    }
  }

  /** Whether an item shares a minute with `span`. */
  function MeetsSpan(span: TimeSpan): DayBlock -> bool {
    (o: DayBlock) => SpansMeet(span, o.span)
  }

  /** The stacking depth of the `i`-th item of a column: how many earlier items share a
      minute with it; it is 0 exactly when none does, so the first item is never shifted. */
  function OverlapCount(blocks: seq<DayBlock>, i: nat): (n: nat)
    requires i < |blocks|
    ensures n <= i
    ensures n == CountWhere(blocks[..i], MeetsSpan(blocks[i].span))
    ensures n == 0 <==> forall j | 0 <= j < i :: !SpansMeet(blocks[i].span, blocks[j].span)
  {
    var earlier := Filter(blocks[..i], MeetsSpan(blocks[i].span));
    FilterCount(blocks[..i], MeetsSpan(blocks[i].span));
    assert (forall j | 0 <= j < i :: !SpansMeet(blocks[i].span, blocks[j].span)) ==> earlier == [] by {
      if earlier != [] {
        assert earlier[0] in blocks[..i];
      }
    }
    assert forall j | 0 <= j < i && SpansMeet(blocks[i].span, blocks[j].span) :: earlier != [] by {
      forall j | 0 <= j < i && SpansMeet(blocks[i].span, blocks[j].span) ensures earlier != [] {
        assert blocks[..i][j] == blocks[j];
        assert blocks[j] in blocks[..i];
        assert blocks[j] in earlier;
      }
    }
    |earlier|
  }

  // ---------------------------------------------------------------------------
  // Goal timeline blocks

  /** How a timeline block is placed vertically: the default band, or by its times. */
  datatype BlockPosition = DefaultPosition | AtTime(span: TimeSpan)

  /** A timeline drawn across the day columns of the month. */
  datatype TimelineBlock = TimelineBlock(
    goalId: int,
    timelineId: int,
    timelineIndex: nat,
    startDayIndex: int,
    spanDays: int,
    position: BlockPosition,
    isPartialStart: bool,
    isPartialEnd: bool)

  /** The timeline shares at least one day with the month `first`..`last`. */
  predicate InMonth(t: Timeline, first: int, last: int) {
    t.startDate <= last && t.endDate >= first
  }

  /** The block of a timeline clipped to the month: it starts at the later of the two
      starts and ends at the earlier of the two ends. */
  function BlockOf(g: Goal, t: Timeline, index: nat, first: int, last: int): (b: TimelineBlock)
    requires first <= last && InMonth(t, first, last)
    ensures 0 <= b.startDayIndex && b.startDayIndex + b.spanDays <= last - first + 1
    ensures t.startDate <= t.endDate ==> 1 <= b.spanDays
    ensures b.startDayIndex == (if t.startDate > first then t.startDate - first else 0)
    ensures b.startDayIndex + b.spanDays - 1 == (if t.endDate < last then t.endDate - first else last - first)
    ensures b.isPartialStart <==> t.startDate < first
    ensures b.isPartialEnd <==> t.endDate > last
    ensures b.goalId == g.id && b.timelineId == t.id && b.timelineIndex == index
  {
    var actualStart := if t.startDate > first then t.startDate else first;
    var actualEnd := if t.endDate < last then t.endDate else last;
    var startDayIndex := actualStart - first;
    var endDayIndex := actualEnd - first;
    TimelineBlock(g.id, t.id, index, startDayIndex, endDayIndex - startDayIndex + 1,
      if Timed(t.start, t.end) then AtTime(ItemTimeSpan(t.start, t.end)) else DefaultPosition,
      t.startDate < first, t.endDate > last)
  }

  /** The blocks of the first `n` timelines of goal `g`. */
  function GoalBlocks(g: Goal, n: nat, first: int, last: int): seq<TimelineBlock>
    requires n <= |g.timelines| && first <= last
  {
    if n == 0 then []
    else
      var t := g.timelines[n - 1];
      GoalBlocks(g, n - 1, first, last) + (if InMonth(t, first, last) then [BlockOf(g, t, n - 1, first, last)] else [])
  }

  /** `getGoalTimelinesForMonth` on the month `first`..`last`. */
  function MonthBlocks(goals: seq<Goal>, first: int, last: int): seq<TimelineBlock>
    requires first <= last
  {
    if goals == [] then []
    else
      var g := goals[|goals| - 1];
      MonthBlocks(goals[..|goals| - 1], first, last) + GoalBlocks(g, |g.timelines|, first, last)
  }

  lemma {:induction false} GoalBlocksMembers(g: Goal, n: nat, first: int, last: int, b: TimelineBlock)
    requires n <= |g.timelines| && first <= last
    ensures b in GoalBlocks(g, n, first, last) <==>
      exists j | 0 <= j < n :: InMonth(g.timelines[j], first, last) && b == BlockOf(g, g.timelines[j], j, first, last)
  {
    if n > 0 {
      GoalBlocksMembers(g, n - 1, first, last, b);
    }
  }

  /** A block is drawn exactly for each timeline of each goal that shares a day with the month. */
  lemma {:induction false} MonthBlocksMembers(goals: seq<Goal>, first: int, last: int, b: TimelineBlock)
    requires first <= last
    ensures b in MonthBlocks(goals, first, last) <==>
      exists g, j | g in goals && 0 <= j < |g.timelines| ::
        InMonth(g.timelines[j], first, last) && b == BlockOf(g, g.timelines[j], j, first, last)
  {
    if goals != [] {
      var init, g := goals[..|goals| - 1], goals[|goals| - 1];
      MonthBlocksMembers(init, first, last, b);
      GoalBlocksMembers(g, |g.timelines|, first, last, b);
      assert goals == init + [g];
      if exists h, j | h in goals && 0 <= j < |h.timelines| ::
          InMonth(h.timelines[j], first, last) && b == BlockOf(h, h.timelines[j], j, first, last) {
        var h, j :| h in goals && 0 <= j < |h.timelines| &&
          InMonth(h.timelines[j], first, last) && b == BlockOf(h, h.timelines[j], j, first, last);
        if h != g {
          assert h in init;
        }
      }
    }
  }

  /** The first and last day ordinals of month `m` of year `y`. */
  function MonthFirst(y: int, m: int): int
    requires 1 <= m <= 12
  {
    DayOrdinal(y, m, 1)
  }

  function MonthLast(y: int, m: int): (d: int)
    requires 1 <= m <= 12
    ensures d - MonthFirst(y, m) + 1 == DaysInMonth(y, m)
  {
    DayOrdinalInMonth(y, m, DaysInMonth(y, m));
    DayOrdinal(y, m, DaysInMonth(y, m))
  }

  method CollectGoalBlocks(g: Goal, first: int, last: int) returns (blocks: seq<TimelineBlock>)
    requires first <= last
    ensures blocks == GoalBlocks(g, |g.timelines|, first, last)
  {
    blocks := [];
    var j := 0;
    while j < |g.timelines|
      invariant 0 <= j <= |g.timelines|
      invariant blocks == GoalBlocks(g, j, first, last)
    {
      var t := g.timelines[j];
      if t.startDate <= last && t.endDate >= first {
        blocks := blocks + [BlockOf(g, t, j, first, last)];
      }
      j := j + 1;
    }
  }

  /** The block list of the shown month, built goal by goal. */
  method GoalTimelinesForMonth(y: int, m: int, goals: seq<Goal>) returns (blocks: seq<TimelineBlock>)
    requires 1 <= m <= 12
    ensures blocks == MonthBlocks(goals, MonthFirst(y, m), MonthLast(y, m))
  {
    var first, last := MonthFirst(y, m), MonthLast(y, m);
    blocks := [];
    var i := 0;
    while i < |goals|
      invariant 0 <= i <= |goals|
      invariant blocks == MonthBlocks(goals[..i], first, last)
    {
      var more := CollectGoalBlocks(goals[i], first, last);
      assert goals[..i + 1][..i] == goals[..i];
      blocks := blocks + more;
      i := i + 1;
    }
    assert goals[..i] == goals;
  }

  // ---------------------------------------------------------------------------
  // Row labels and day columns

  datatype Slot = Slot(hour: int, text: string)

  /** The label of hour row `h`. */
  function HourLabel(h: int): string {
    if h == 0 then "12 AM"
    else if h < 12 then IntToString(h) + " AM"
    else if h == 12 then "12 PM"
    else IntToString(h - 12) + " PM"
  }

  /** Each row label is the hour on the 12-hour clock that the sidebar prints, then AM
      for hours 0 to 11 and PM for 12 to 23. */
  lemma HourLabelIsTwelveHourClock(h: int)
    requires 0 <= h < 24
    ensures HourLabel(h) == NatToString(Sidebar.DisplayHour(h)) + (if h < 12 then " AM" else " PM")
  {
    assert NatToString(12) == "12";
  }

  /** The 24 hour rows of the grid. */
  method TimeSlots() returns (slots: seq<Slot>)
    ensures |slots| == 24
    ensures forall h | 0 <= h < 24 :: slots[h] == Slot(h, HourLabel(h))
  {
    slots := [];
    var i := 0;
    while i < 24
      invariant 0 <= i <= 24 && |slots| == i
      invariant forall h | 0 <= h < i :: slots[h] == Slot(h, HourLabel(h))
    {
      var text := if i == 0 then "12 AM" else if i < 12 then IntToString(i) + " AM" else if i == 12 then "12 PM" else IntToString(i - 12) + " PM";
      slots := slots + [Slot(i, text)];
      i := i + 1;
    }
  }

  /** The day columns: every day of the month once, in calendar order. */
  method MonthDays(y: int, m: int) returns (days: seq<int>)
    requires 1 <= m <= 12
    ensures |days| == DaysInMonth(y, m)
    ensures |days| > 0 ==> days[0] == MonthFirst(y, m)
    ensures forall i | 0 < i < |days| :: days[i] == days[i - 1] + 1
    ensures forall i | 0 <= i < |days| :: days[i] == DayOrdinal(y, m, i + 1)
  {
    var count := DaysInMonth(y, m);
    days := [];
    var i := 1;
    while i <= count
      invariant 1 <= i <= count + 1 && |days| == i - 1
      invariant forall k | 0 <= k < |days| :: days[k] == DayOrdinal(y, m, k + 1)
    {
      days := days + [DayOrdinal(y, m, i)];
      i := i + 1;
    }
    forall k | 0 < k < |days| ensures days[k] == days[k - 1] + 1 {
      DayOrdinalInMonth(y, m, k + 1);
      DayOrdinalInMonth(y, m, k);
    }
  }
}
