/** The calendar-conflict checkers of the add and edit dialogs. A new or edited
    activity or meeting is checked against the stored activities, goal timelines
    and team meetings; a new or edited goal timeline is checked against the same
    three lists, with inclusive date ranges. Each checker walks the lists in order
    and records one `Overlap` per conflicting entry. */
module Overlaps {
  import opened Common
  import opened Planner

  datatype Kind = ActivityKind | GoalKind | MeetingKind

  /** `"<start> - <end>"` (the end may be missing) or `"All day"`. */
  datatype TimeLabel = AllDay | Span(from: int, to: Option<int>)

  /** The `date` line of a conflict: absent, one day, or `"<start> to <end>"`. */
  datatype DateLabel = NoDate | OnDay(day: int) | DayRange(first: int, last: int)

  datatype Overlap = Overlap(kind: Kind, title: string, time: TimeLabel, date: DateLabel)

  /** The activity or meeting on the form: its date and its times as entered. */
  datatype DayItem = DayItem(date: int, start: Option<int>, end: Option<int>)

  /** The goal timeline on the form; a date is `None` when its field is empty. */
  datatype SpanItem = SpanItem(startDate: Option<int>, endDate: Option<int>, start: Option<int>, end: Option<int>)

  /** Which stored entry the edit dialog leaves out: the activity or the meeting being edited. */
  datatype Skip = SkipNone | SkipActivity(activityId: int) | SkipMeeting(meetingId: int)

  /** `"s - e"` when the start time is filled in, `"All day"` otherwise. */
  function StartLabel(s: Option<int>, e: Option<int>): TimeLabel {
    if s.Some? then Span(s.value, e) else AllDay
  }

  /** `"s - e"` when both times are filled in, `"All day"` otherwise. */
  function TimedLabel(s: Option<int>, e: Option<int>): TimeLabel {
    if Timed(s, e) then Span(s.value, e) else AllDay
  }

  // ---------------------------------------------------------------------------
  // An activity or meeting on the form against the stored entries

  predicate SkipsActivity(skip: Skip, a: Activity) {
    skip.SkipActivity? && skip.activityId == a.id
  }

  predicate SkipsMeeting(skip: Skip, m: Meeting) {
    skip.SkipMeeting? && skip.meetingId == m.id
  }

  /** A stored activity conflicts when it is not the edited one, lies on the same day
      and its times meet the new item's. */
  predicate DayActivityReported(item: DayItem, skip: Skip, a: Activity) {
    !SkipsActivity(skip, a) && a.date == item.date && Clash(item.start, item.end, a.start, a.end)
  }

  function DayActivityOverlap(a: Activity): Overlap {
    Overlap(ActivityKind, a.title, StartLabel(a.start, a.end), NoDate)
  }

  /** A timeline conflicts when its inclusive date range holds the item's day and it is
      either untimed or its times meet the item's. */
  predicate DayTimelineReported(item: DayItem, t: Timeline) {
    t.startDate <= item.date <= t.endDate
    && (Timed(t.start, t.end) ==> Clash(item.start, item.end, t.start, t.end))
  }

  function DayTimelineOverlap(g: Goal, t: Timeline): Overlap {
    Overlap(GoalKind, GoalTimelineTitle(g, t), TimedLabel(t.start, t.end), NoDate)
  }

  predicate DayMeetingReported(item: DayItem, skip: Skip, m: Meeting) {
    !SkipsMeeting(skip, m) && m.date == item.date && Clash(item.start, item.end, m.start, m.end)
  }

  function DayMeetingOverlap(m: Meeting): Overlap {
    Overlap(MeetingKind, m.title, StartLabel(m.start, m.end), NoDate)
  }

  function DayActivityHits(item: DayItem, skip: Skip, acts: seq<Activity>): seq<Overlap> {
    FlatMap(acts, (a: Activity) => if DayActivityReported(item, skip, a) then [DayActivityOverlap(a)] else [])
  }

  function DayGoalHits(item: DayItem, g: Goal, ts: seq<Timeline>): seq<Overlap> {
    FlatMap(ts, (t: Timeline) => if DayTimelineReported(item, t) then [DayTimelineOverlap(g, t)] else [])
  }

  function DayTimelineHits(item: DayItem, goals: seq<Goal>): seq<Overlap> {
    FlatMap(goals, (g: Goal) => DayGoalHits(item, g, g.timelines))
  }

  function DayTeamHits(item: DayItem, skip: Skip, ms: seq<Meeting>): seq<Overlap> {
    FlatMap(ms, (m: Meeting) => if DayMeetingReported(item, skip, m) then [DayMeetingOverlap(m)] else [])
  }

  function DayMeetingHits(item: DayItem, skip: Skip, teams: seq<Team>): seq<Overlap> {
    FlatMap(teams, (tm: Team) => DayTeamHits(item, skip, tm.meetings))
  }

  /** The conflict list of an activity or meeting: nothing when either of its times is
      empty, otherwise the activity conflicts, then the timeline conflicts, then the
      meeting conflicts, each in list order. */
  function DayItemOverlaps(item: DayItem, skip: Skip, acts: seq<Activity>, goals: seq<Goal>, teams: seq<Team>): seq<Overlap> {
    if !Timed(item.start, item.end) then []
    else DayActivityHits(item, skip, acts) + DayTimelineHits(item, goals) + DayMeetingHits(item, skip, teams)
  }

  lemma DayGoalHitsMembers(item: DayItem, g: Goal, o: Overlap)
    ensures o in DayGoalHits(item, g, g.timelines) <==>
      exists t | t in g.timelines :: DayTimelineReported(item, t) && o == DayTimelineOverlap(g, t)
  {
    FlatMapMembers(g.timelines, (t: Timeline) => if DayTimelineReported(item, t) then [DayTimelineOverlap(g, t)] else [], o);
  }

  lemma DayTeamHitsMembers(item: DayItem, skip: Skip, tm: Team, o: Overlap)
    ensures o in DayTeamHits(item, skip, tm.meetings) <==>
      exists m | m in tm.meetings :: DayMeetingReported(item, skip, m) && o == DayMeetingOverlap(m)
  {
    FlatMapMembers(tm.meetings, (m: Meeting) => if DayMeetingReported(item, skip, m) then [DayMeetingOverlap(m)] else [], o);
  }

  /** Which entries end up in the conflict list, stated without the loops. */
  lemma DayItemOverlapsMembers(item: DayItem, skip: Skip, acts: seq<Activity>, goals: seq<Goal>, teams: seq<Team>, o: Overlap)
    ensures o in DayItemOverlaps(item, skip, acts, goals, teams) <==>
      Timed(item.start, item.end) &&
      ((exists a | a in acts :: DayActivityReported(item, skip, a) && o == DayActivityOverlap(a))
       || (exists g, t | g in goals && t in g.timelines :: DayTimelineReported(item, t) && o == DayTimelineOverlap(g, t))
       || (exists tm, m | tm in teams && m in tm.meetings :: DayMeetingReported(item, skip, m) && o == DayMeetingOverlap(m)))
  {
    FlatMapMembers(acts, (a: Activity) => if DayActivityReported(item, skip, a) then [DayActivityOverlap(a)] else [], o);
    FlatMapMembers(goals, (g: Goal) => DayGoalHits(item, g, g.timelines), o);
    forall g | g in goals {
      DayGoalHitsMembers(item, g, o);
    }
    FlatMapMembers(teams, (tm: Team) => DayTeamHits(item, skip, tm.meetings), o);
    forall tm | tm in teams {
      DayTeamHitsMembers(item, skip, tm, o);
    }
  }

  /** The first pass: stored activities on the same day whose times meet the item's. */
  method CollectDayActivities(item: DayItem, skip: Skip, activities: seq<Activity>) returns (hits: seq<Overlap>)
    requires Timed(item.start, item.end)
    ensures hits == DayActivityHits(item, skip, activities)
  {
    var newStart, newEnd := item.start.value, item.end.value;
    hits := [];
    var i := 0;
    while i < |activities|
      invariant 0 <= i <= |activities|
      invariant hits == DayActivityHits(item, skip, activities[..i])
    {
      var a := activities[i];
      assert activities[..i + 1][..i] == activities[..i];
      if skip.SkipActivity? && a.id == skip.activityId {
      } else if a.date != item.date {
      } else if a.start.None? || a.end.None? {
      } else if newStart < a.end.value && newEnd > a.start.value {
        hits := hits + [Overlap(ActivityKind, a.title, Span(a.start.value, a.end), NoDate)];
      }
      i := i + 1;
    }
    assert activities[..i] == activities;
  }

  /** The timelines of one goal whose date range holds the item's day. */
  method CollectDayGoal(item: DayItem, goal: Goal) returns (hits: seq<Overlap>)
    requires Timed(item.start, item.end)
    ensures hits == DayGoalHits(item, goal, goal.timelines)
  {
    var newStart, newEnd := item.start.value, item.end.value;
    hits := [];
    var k := 0;
    while k < |goal.timelines|
      invariant 0 <= k <= |goal.timelines|
      invariant hits == DayGoalHits(item, goal, goal.timelines[..k])
    {
      var t := goal.timelines[k];
      assert goal.timelines[..k + 1][..k] == goal.timelines[..k];
      if t.startDate <= item.date && item.date <= t.endDate {
        if t.start.Some? && t.end.Some? {
          if newStart < t.end.value && newEnd > t.start.value {
            hits := hits + [Overlap(GoalKind, GoalTimelineTitle(goal, t), Span(t.start.value, t.end), NoDate)];
          }
        } else {
          hits := hits + [Overlap(GoalKind, GoalTimelineTitle(goal, t), AllDay, NoDate)];
        }
      }
      k := k + 1;
    }
    assert goal.timelines[..k] == goal.timelines;
  }

  /** The second pass, over every goal. */
  method CollectDayTimelines(item: DayItem, goals: seq<Goal>) returns (hits: seq<Overlap>)
    requires Timed(item.start, item.end)
    ensures hits == DayTimelineHits(item, goals)
  {
    hits := [];
    var g := 0;
    while g < |goals|
      invariant 0 <= g <= |goals|
      invariant hits == DayTimelineHits(item, goals[..g])
    {
      var more := CollectDayGoal(item, goals[g]);
      assert goals[..g + 1][..g] == goals[..g];
      hits := hits + more;
      g := g + 1;
    }
    assert goals[..g] == goals;
  }

  /** The meetings of one team on the item's day whose times meet the item's. */
  method CollectDayTeam(item: DayItem, skip: Skip, team: Team) returns (hits: seq<Overlap>)
    requires Timed(item.start, item.end)
    ensures hits == DayTeamHits(item, skip, team.meetings)
  {
    var newStart, newEnd := item.start.value, item.end.value;
    hits := [];
    var k := 0;
    while k < |team.meetings|
      invariant 0 <= k <= |team.meetings|
      invariant hits == DayTeamHits(item, skip, team.meetings[..k])
    {
      var m := team.meetings[k];
      assert team.meetings[..k + 1][..k] == team.meetings[..k];
      if skip.SkipMeeting? && m.id == skip.meetingId {
      } else if m.date != item.date {
      } else if m.start.None? || m.end.None? {
      } else if newStart < m.end.value && newEnd > m.start.value {
        hits := hits + [Overlap(MeetingKind, m.title, Span(m.start.value, m.end), NoDate)];
      }
      k := k + 1;
    }
    assert team.meetings[..k] == team.meetings;
  }

  /** The third pass, over every team. */
  method CollectDayMeetings(item: DayItem, skip: Skip, teams: seq<Team>) returns (hits: seq<Overlap>)
    requires Timed(item.start, item.end)
    ensures hits == DayMeetingHits(item, skip, teams)
  {
    hits := [];
    var n := 0;
    while n < |teams|
      invariant 0 <= n <= |teams|
      invariant hits == DayMeetingHits(item, skip, teams[..n])
    {
      var more := CollectDayTeam(item, skip, teams[n]);
      assert teams[..n + 1][..n] == teams[..n];
      hits := hits + more;
      n := n + 1;
    }
    assert teams[..n] == teams;
  }

  /** The checker of an activity or meeting, as the dialogs run it. */
  method CheckDayItemOverlaps(item: DayItem, skip: Skip, activities: seq<Activity>, goals: seq<Goal>, teams: seq<Team>)
    returns (overlaps: seq<Overlap>)
    ensures overlaps == DayItemOverlaps(item, skip, activities, goals, teams)
  {
    if item.start.None? || item.end.None? {
      return [];
    }
    var fromActivities := CollectDayActivities(item, skip, activities);
    var fromGoals := CollectDayTimelines(item, goals);
    var fromMeetings := CollectDayMeetings(item, skip, teams);
    overlaps := fromActivities + fromGoals + fromMeetings;
  }

  // ---------------------------------------------------------------------------
  // A goal timeline on the form against the stored entries

  /** A stored activity dated inside the new timeline's inclusive range conflicts unless
      both sides are timed and their times are apart. */
  predicate SpanActivityReported(first: int, last: int, sp: SpanItem, a: Activity) {
    first <= a.date <= last
    && (Timed(sp.start, sp.end) && Timed(a.start, a.end) ==> Clash(sp.start, sp.end, a.start, a.end))
  }

  function SpanActivityOverlap(a: Activity): Overlap {
    Overlap(ActivityKind, a.title, StartLabel(a.start, a.end), OnDay(a.date))
  }

  /** Another timeline conflicts only when the inclusive date ranges intersect, both
      timelines are timed and their times meet. */
  predicate SpanTimelineReported(first: int, last: int, sp: SpanItem, t: Timeline) {
    first <= t.endDate && last >= t.startDate && Clash(sp.start, sp.end, t.start, t.end)
  }

  function SpanTimelineOverlap(g: Goal, t: Timeline): Overlap {
    Overlap(GoalKind, GoalTimelineTitle(g, t), TimedLabel(t.start, t.end), DayRange(t.startDate, t.endDate))
  }

  predicate SpanMeetingReported(first: int, last: int, sp: SpanItem, m: Meeting) {
    first <= m.date <= last
    && (Timed(sp.start, sp.end) && Timed(m.start, m.end) ==> Clash(sp.start, sp.end, m.start, m.end))
  }

  function SpanMeetingOverlap(m: Meeting): Overlap {
    Overlap(MeetingKind, m.title, StartLabel(m.start, m.end), OnDay(m.date))
  }

  function SpanActivityHits(first: int, last: int, sp: SpanItem, acts: seq<Activity>): seq<Overlap> {
    FlatMap(acts, (a: Activity) => if SpanActivityReported(first, last, sp, a) then [SpanActivityOverlap(a)] else [])
  }

  function SpanGoalHits(first: int, last: int, sp: SpanItem, g: Goal, ts: seq<Timeline>): seq<Overlap> {
    FlatMap(ts, (t: Timeline) => if SpanTimelineReported(first, last, sp, t) then [SpanTimelineOverlap(g, t)] else [])
  }

  /** `skipGoal` is the goal being edited, whose timelines are all left out. */
  function SpanTimelineHits(first: int, last: int, sp: SpanItem, skipGoal: Option<int>, goals: seq<Goal>): seq<Overlap> {
    FlatMap(goals, (g: Goal) => if skipGoal == Some(g.id) then [] else SpanGoalHits(first, last, sp, g, g.timelines))
  }

  function SpanTeamHits(first: int, last: int, sp: SpanItem, ms: seq<Meeting>): seq<Overlap> {
    FlatMap(ms, (m: Meeting) => if SpanMeetingReported(first, last, sp, m) then [SpanMeetingOverlap(m)] else [])
  }

  function SpanMeetingHits(first: int, last: int, sp: SpanItem, teams: seq<Team>): seq<Overlap> {
    FlatMap(teams, (tm: Team) => SpanTeamHits(first, last, sp, tm.meetings))
  }

  /** The conflict list of a goal timeline: nothing when either date is empty, otherwise
      the activity, timeline and meeting conflicts in list order. */
  function SpanOverlaps(sp: SpanItem, skipGoal: Option<int>, acts: seq<Activity>, goals: seq<Goal>, teams: seq<Team>): seq<Overlap> {
    if sp.startDate.None? || sp.endDate.None? then []
    else
      var first, last := sp.startDate.value, sp.endDate.value;
      SpanActivityHits(first, last, sp, acts) + SpanTimelineHits(first, last, sp, skipGoal, goals)
      + SpanMeetingHits(first, last, sp, teams)
  }

  lemma SpanGoalHitsMembers(first: int, last: int, sp: SpanItem, g: Goal, o: Overlap)
    ensures o in SpanGoalHits(first, last, sp, g, g.timelines) <==>
      exists t | t in g.timelines :: SpanTimelineReported(first, last, sp, t) && o == SpanTimelineOverlap(g, t)
  {
    FlatMapMembers(g.timelines, (t: Timeline) => if SpanTimelineReported(first, last, sp, t) then [SpanTimelineOverlap(g, t)] else [], o);
  }

  lemma SpanTeamHitsMembers(first: int, last: int, sp: SpanItem, tm: Team, o: Overlap)
    ensures o in SpanTeamHits(first, last, sp, tm.meetings) <==>
      exists m | m in tm.meetings :: SpanMeetingReported(first, last, sp, m) && o == SpanMeetingOverlap(m)
  {
    FlatMapMembers(tm.meetings, (m: Meeting) => if SpanMeetingReported(first, last, sp, m) then [SpanMeetingOverlap(m)] else [], o);
  }

  /** Which entries end up in a timeline's conflict list, stated without the loops. */
  lemma SpanOverlapsMembers(sp: SpanItem, skipGoal: Option<int>, acts: seq<Activity>, goals: seq<Goal>, teams: seq<Team>, o: Overlap)
    ensures o in SpanOverlaps(sp, skipGoal, acts, goals, teams) <==>
      sp.startDate.Some? && sp.endDate.Some? &&
      ((exists a | a in acts :: SpanActivityReported(sp.startDate.value, sp.endDate.value, sp, a) && o == SpanActivityOverlap(a))
       || (exists g, t | g in goals && t in g.timelines ::
             skipGoal != Some(g.id) && SpanTimelineReported(sp.startDate.value, sp.endDate.value, sp, t) && o == SpanTimelineOverlap(g, t))
       || (exists tm, m | tm in teams && m in tm.meetings :: SpanMeetingReported(sp.startDate.value, sp.endDate.value, sp, m) && o == SpanMeetingOverlap(m)))
  {
    if sp.startDate.Some? && sp.endDate.Some? {
      var first, last := sp.startDate.value, sp.endDate.value;
      FlatMapMembers(acts, (a: Activity) => if SpanActivityReported(first, last, sp, a) then [SpanActivityOverlap(a)] else [], o);
      FlatMapMembers(goals, (g: Goal) => if skipGoal == Some(g.id) then [] else SpanGoalHits(first, last, sp, g, g.timelines), o);
      forall g | g in goals {
        SpanGoalHitsMembers(first, last, sp, g, o);
      }
      FlatMapMembers(teams, (tm: Team) => SpanTeamHits(first, last, sp, tm.meetings), o);
      forall tm | tm in teams {
        SpanTeamHitsMembers(first, last, sp, tm, o);
      }
    }
  }

  method CollectSpanActivities(first: int, last: int, sp: SpanItem, activities: seq<Activity>) returns (hits: seq<Overlap>)
    ensures hits == SpanActivityHits(first, last, sp, activities)
  {
    hits := [];
    var i := 0;
    while i < |activities|
      invariant 0 <= i <= |activities|
      invariant hits == SpanActivityHits(first, last, sp, activities[..i])
    {
      var a := activities[i];
      assert activities[..i + 1][..i] == activities[..i];
      if first <= a.date && a.date <= last {
        if sp.start.Some? && sp.end.Some? && a.start.Some? && a.end.Some? {
          if sp.start.value < a.end.value && sp.end.value > a.start.value {
            hits := hits + [Overlap(ActivityKind, a.title, Span(a.start.value, a.end), OnDay(a.date))];
          }
        } else {
          var time := if a.start.Some? then Span(a.start.value, a.end) else AllDay;
          hits := hits + [Overlap(ActivityKind, a.title, time, OnDay(a.date))];
        }
      }
      i := i + 1;
    }
    assert activities[..i] == activities;
  }

  method CollectSpanGoal(first: int, last: int, sp: SpanItem, goal: Goal) returns (hits: seq<Overlap>)
    ensures hits == SpanGoalHits(first, last, sp, goal, goal.timelines)
  {
    hits := [];
    var k := 0;
    while k < |goal.timelines|
      invariant 0 <= k <= |goal.timelines|
      invariant hits == SpanGoalHits(first, last, sp, goal, goal.timelines[..k])
    {
      var t := goal.timelines[k];
      assert goal.timelines[..k + 1][..k] == goal.timelines[..k];
      if first <= t.endDate && last >= t.startDate {
        if sp.start.Some? && sp.end.Some? && t.start.Some? && t.end.Some? {
          if sp.start.value < t.end.value && sp.end.value > t.start.value {
            hits := hits + [Overlap(GoalKind, GoalTimelineTitle(goal, t), Span(t.start.value, t.end), DayRange(t.startDate, t.endDate))];
          }
        }
      }
      k := k + 1;
    }
    assert goal.timelines[..k] == goal.timelines;
  }

  method CollectSpanTimelines(first: int, last: int, sp: SpanItem, skipGoal: Option<int>, goals: seq<Goal>) returns (hits: seq<Overlap>)
    ensures hits == SpanTimelineHits(first, last, sp, skipGoal, goals)
  {
    hits := [];
    var g := 0;
    while g < |goals|
      invariant 0 <= g <= |goals|
      invariant hits == SpanTimelineHits(first, last, sp, skipGoal, goals[..g])
    {
      assert goals[..g + 1][..g] == goals[..g];
      if skipGoal != Some(goals[g].id) {
        var more := CollectSpanGoal(first, last, sp, goals[g]);
        hits := hits + more;
      }
      g := g + 1;
    }
    assert goals[..g] == goals;
  }

  method CollectSpanTeam(first: int, last: int, sp: SpanItem, team: Team) returns (hits: seq<Overlap>)
    ensures hits == SpanTeamHits(first, last, sp, team.meetings)
  {
    hits := [];
    var k := 0;
    while k < |team.meetings|
      invariant 0 <= k <= |team.meetings|
      invariant hits == SpanTeamHits(first, last, sp, team.meetings[..k])
    {
      var m := team.meetings[k];
      assert team.meetings[..k + 1][..k] == team.meetings[..k];
      if first <= m.date && m.date <= last {
        if sp.start.Some? && sp.end.Some? && m.start.Some? && m.end.Some? {
          if sp.start.value < m.end.value && sp.end.value > m.start.value {
            hits := hits + [Overlap(MeetingKind, m.title, Span(m.start.value, m.end), OnDay(m.date))];
          }
        } else {
          var time := if m.start.Some? then Span(m.start.value, m.end) else AllDay;
          hits := hits + [Overlap(MeetingKind, m.title, time, OnDay(m.date))];
        }
      }
      k := k + 1;
    }
    assert team.meetings[..k] == team.meetings;
  }

  method CollectSpanMeetings(first: int, last: int, sp: SpanItem, teams: seq<Team>) returns (hits: seq<Overlap>)
    ensures hits == SpanMeetingHits(first, last, sp, teams)
  {
    hits := [];
    var n := 0;
    while n < |teams|
      invariant 0 <= n <= |teams|
      invariant hits == SpanMeetingHits(first, last, sp, teams[..n])
    {
      var more := CollectSpanTeam(first, last, sp, teams[n]);
      assert teams[..n + 1][..n] == teams[..n];
      hits := hits + more;
      n := n + 1;
    }
    assert teams[..n] == teams;
  }

  /** The checker of a goal timeline, as the dialogs run it. */
  method CheckTimelineOverlaps(sp: SpanItem, skipGoal: Option<int>, activities: seq<Activity>, goals: seq<Goal>, teams: seq<Team>)
    returns (overlaps: seq<Overlap>)
    ensures overlaps == SpanOverlaps(sp, skipGoal, activities, goals, teams)
  {
    if sp.startDate.None? || sp.endDate.None? {
      return [];
    }
    var first, last := sp.startDate.value, sp.endDate.value;
    var fromActivities := CollectSpanActivities(first, last, sp, activities);
    var fromGoals := CollectSpanTimelines(first, last, sp, skipGoal, goals);
    var fromMeetings := CollectSpanMeetings(first, last, sp, teams);
    overlaps := fromActivities + fromGoals + fromMeetings;
  }

  // ---------------------------------------------------------------------------
  // Leaving out the edited entry is the same as checking against a list without it

  /** The stored teams with the meeting `id` taken out of each. */
  function WithoutMeeting(teams: seq<Team>, id: int): (r: seq<Team>)
    ensures |r| == |teams|
  {
    if teams == [] then []
    else
      var tm := teams[|teams| - 1];
      WithoutMeeting(teams[..|teams| - 1], id) + [Team(tm.id, Filter(tm.meetings, (m: Meeting) => m.id != id))]
  }

  lemma {:induction false} SkipActivityIsFilter(item: DayItem, id: int, acts: seq<Activity>, goals: seq<Goal>, teams: seq<Team>)
    ensures DayItemOverlaps(item, SkipActivity(id), acts, goals, teams)
         == DayItemOverlaps(item, SkipNone, Filter(acts, (a: Activity) => a.id != id), goals, teams)
  {
    FlatMapFilter(acts, (a: Activity) => a.id != id,
      (a: Activity) => if DayActivityReported(item, SkipNone, a) then [DayActivityOverlap(a)] else [],
      (a: Activity) => if DayActivityReported(item, SkipActivity(id), a) then [DayActivityOverlap(a)] else []);
    forall tm | tm in teams
      ensures DayTeamHits(item, SkipActivity(id), tm.meetings) == DayTeamHits(item, SkipNone, tm.meetings)
    {
      FlatMapCongruent(tm.meetings,
        (m: Meeting) => if DayMeetingReported(item, SkipActivity(id), m) then [DayMeetingOverlap(m)] else [],
        (m: Meeting) => if DayMeetingReported(item, SkipNone, m) then [DayMeetingOverlap(m)] else []);
    }
    FlatMapCongruent(teams,
      (tm: Team) => DayTeamHits(item, SkipActivity(id), tm.meetings),
      (tm: Team) => DayTeamHits(item, SkipNone, tm.meetings));
  }

  lemma {:induction false} SkipMeetingTeams(item: DayItem, id: int, teams: seq<Team>)
    ensures DayMeetingHits(item, SkipMeeting(id), teams) == DayMeetingHits(item, SkipNone, WithoutMeeting(teams, id))
  {
    if teams != [] {
      var init, tm := teams[..|teams| - 1], teams[|teams| - 1];
      SkipMeetingTeams(item, id, init);
      FlatMapFilter(tm.meetings, (m: Meeting) => m.id != id,
        (m: Meeting) => if DayMeetingReported(item, SkipNone, m) then [DayMeetingOverlap(m)] else [],
        (m: Meeting) => if DayMeetingReported(item, SkipMeeting(id), m) then [DayMeetingOverlap(m)] else []);
      var w := WithoutMeeting(teams, id);
      assert w[..|w| - 1] == WithoutMeeting(init, id);
    }
  }

  lemma {:induction false} SkipMeetingIsFilter(item: DayItem, id: int, acts: seq<Activity>, goals: seq<Goal>, teams: seq<Team>)
    ensures DayItemOverlaps(item, SkipMeeting(id), acts, goals, teams)
         == DayItemOverlaps(item, SkipNone, acts, goals, WithoutMeeting(teams, id))
  {
    FlatMapCongruent(acts,
      (a: Activity) => if DayActivityReported(item, SkipMeeting(id), a) then [DayActivityOverlap(a)] else [],
      (a: Activity) => if DayActivityReported(item, SkipNone, a) then [DayActivityOverlap(a)] else []);
    SkipMeetingTeams(item, id, teams);
  }

  lemma {:induction false} SkipGoalIsFilter(sp: SpanItem, id: int, acts: seq<Activity>, goals: seq<Goal>, teams: seq<Team>)
    ensures SpanOverlaps(sp, Some(id), acts, goals, teams)
         == SpanOverlaps(sp, None, acts, Filter(goals, (g: Goal) => g.id != id), teams)
  {
    if sp.startDate.Some? && sp.endDate.Some? {
      var first, last := sp.startDate.value, sp.endDate.value;
      FlatMapFilter(goals, (g: Goal) => g.id != id,
        (g: Goal) => if None == Some(g.id) then [] else SpanGoalHits(first, last, sp, g, g.timelines),
        (g: Goal) => if Some(id) == Some(g.id) then [] else SpanGoalHits(first, last, sp, g, g.timelines));
    }
  }
}
