/** The header's search box: matching stored items against the query, ranking the
    matches, keeping the first ten, and what a click on a result resets. */
module Header {
  import opened Common
  import opened Planner
  import opened Sorting

  datatype ResultKind = ActivityResult | GoalResult | MeetingResult

  /** A line of the result list: what it is, the ids it refers to, its title, and the
      day the calendar moves to when it is picked. */
  datatype SearchResult = SearchResult(kind: ResultKind, id: int, timelineId: Option<int>, title: string, day: int)

  /** The item announced to the calendar and the sidebar for highlighting. */
  datatype Highlight = Highlight(kind: ResultKind, id: int, timelineId: Option<int>)

  /** `timelineId || null`: a missing id and the falsy id 0 are both sent as `null`. */
  function IdOrNull(id: Option<int>): (r: Option<int>)
    ensures r.Some? <==> id.Some? && id.value != 0
    ensures r.Some? ==> r == id
  {
    if id.Some? && id.value != 0 then id else None
  }

  /** `title.toLowerCase().includes(lowerQuery)`. */
  predicate Matches(title: string, lowerQuery: string) {
    Contains(Lower(title), lowerQuery)
  }

  /** The goal test as written: the combined title, the goal title or the timeline title matches. */
  predicate GoalTimelineMatches(g: Goal, t: Timeline, lowerQuery: string) {
    Matches(GoalTimelineTitle(g, t), lowerQuery) || Matches(g.title, lowerQuery) || Matches(t.title, lowerQuery)
  }

  /** The two extra tests add nothing: the combined title contains both titles. */
  lemma GoalTimelineMatchesCombined(g: Goal, t: Timeline, lowerQuery: string)
    ensures GoalTimelineMatches(g, t, lowerQuery) <==> Matches(GoalTimelineTitle(g, t), lowerQuery)
  {
    LowerAppend(g.title + " - ", t.title);
    LowerAppend(g.title, " - ");
    assert GoalTimelineTitle(g, t) == g.title + " - " + t.title;
    if Matches(g.title, lowerQuery) {
      ContainsInLeft(Lower(g.title), Lower(" - "), lowerQuery);
      ContainsInLeft(Lower(g.title) + Lower(" - "), Lower(t.title), lowerQuery);
    }
    if Matches(t.title, lowerQuery) {
      ContainsInRight(Lower(g.title + " - "), Lower(t.title), lowerQuery);
    }
  }

  function ActivityResultOf(a: Activity): SearchResult {
    SearchResult(ActivityResult, a.id, None, a.title, a.date)
  }

  function GoalResultOf(g: Goal, t: Timeline): SearchResult {
    SearchResult(GoalResult, g.id, Some(t.id), GoalTimelineTitle(g, t), t.startDate)
  }

  function MeetingResultOf(m: Meeting): SearchResult {
    SearchResult(MeetingResult, m.id, None, m.title, m.date)
  }

  function ActivityMatches(lq: string, acts: seq<Activity>): seq<SearchResult> {
    FlatMap(acts, (a: Activity) => if Matches(a.title, lq) then [ActivityResultOf(a)] else [])
  }

  function TimelineMatches(lq: string, g: Goal, ts: seq<Timeline>): seq<SearchResult> {
    FlatMap(ts, (t: Timeline) => if GoalTimelineMatches(g, t, lq) then [GoalResultOf(g, t)] else [])
  }

  function GoalMatches(lq: string, goals: seq<Goal>): seq<SearchResult> {
    FlatMap(goals, (g: Goal) => TimelineMatches(lq, g, g.timelines))
  }

  function MeetingListMatches(lq: string, ms: seq<Meeting>): seq<SearchResult> {
    FlatMap(ms, (m: Meeting) => if Matches(m.title, lq) then [MeetingResultOf(m)] else [])
  }

  function MeetingMatches(lq: string, teams: seq<Team>): seq<SearchResult> {
    FlatMap(teams, (tm: Team) => MeetingListMatches(lq, tm.meetings))
  }

  /** Every match in collection order: activities, then goal timelines, then meetings. */
  function AllMatches(lq: string, acts: seq<Activity>, goals: seq<Goal>, teams: seq<Team>): seq<SearchResult> {
    ActivityMatches(lq, acts) + GoalMatches(lq, goals) + MeetingMatches(lq, teams)
  }

  function CharCodes(s: string): (r: seq<int>)
    ensures |r| == |s| && forall i | 0 <= i < |s| :: r[i] == s[i] as int
  {
    if s == [] then [] else [s[0] as int] + CharCodes(s[1..])
  }

  predicate IsExact(r: SearchResult, lq: string) {
    Lower(r.title) == lq
  }

  /** The ranking: exact titles first, then by title. */
  function RankKey(lq: string, r: SearchResult): seq<int> {
    [if IsExact(r, lq) then 0 else 1] + CharCodes(r.title)
  }

  /** The ranking key of the lower-cased query, as one function value. */
  function RankBy(lq: string): SearchResult -> seq<int> {
    (r: SearchResult) => RankKey(lq, r)
  }

  /** The list shown for a non-blank query. */
  function SearchList(q: string, acts: seq<Activity>, goals: seq<Goal>, teams: seq<Team>): seq<SearchResult> {
    var lq := Lower(q);
    Take(SortBy(AllMatches(lq, acts, goals, teams), RankBy(lq)), 10)
  }

  lemma TimelineMatchesMembers(lq: string, g: Goal, x: SearchResult)
    ensures x in TimelineMatches(lq, g, g.timelines) <==>
      exists t | t in g.timelines :: Matches(GoalTimelineTitle(g, t), lq) && x == GoalResultOf(g, t)
  {
    FlatMapMembers(g.timelines, (t: Timeline) => if GoalTimelineMatches(g, t, lq) then [GoalResultOf(g, t)] else [], x);
    forall t | t in g.timelines
      ensures GoalTimelineMatches(g, t, lq) <==> Matches(GoalTimelineTitle(g, t), lq)
    {
      GoalTimelineMatchesCombined(g, t, lq);
    }
  }

  lemma GoalMatchesMembers(lq: string, goals: seq<Goal>, x: SearchResult)
    ensures x in GoalMatches(lq, goals) <==>
      exists g, t | g in goals && t in g.timelines :: Matches(GoalTimelineTitle(g, t), lq) && x == GoalResultOf(g, t)
  {
    FlatMapMembers(goals, (g: Goal) => TimelineMatches(lq, g, g.timelines), x);
    forall g | g in goals
      ensures x in TimelineMatches(lq, g, g.timelines) <==>
        exists t | t in g.timelines :: Matches(GoalTimelineTitle(g, t), lq) && x == GoalResultOf(g, t)
    {
      TimelineMatchesMembers(lq, g, x);
    }
  }

  lemma MeetingListMatchesMembers(lq: string, tm: Team, x: SearchResult)
    ensures x in MeetingListMatches(lq, tm.meetings) <==>
      exists m | m in tm.meetings :: Matches(m.title, lq) && x == MeetingResultOf(m)
  {
    FlatMapMembers(tm.meetings, (m: Meeting) => if Matches(m.title, lq) then [MeetingResultOf(m)] else [], x);
  }

  lemma MeetingMatchesMembers(lq: string, teams: seq<Team>, x: SearchResult)
    ensures x in MeetingMatches(lq, teams) <==>
      exists tm, m | tm in teams && m in tm.meetings :: Matches(m.title, lq) && x == MeetingResultOf(m)
  {
    FlatMapMembers(teams, (tm: Team) => MeetingListMatches(lq, tm.meetings), x);
    forall tm | tm in teams
      ensures x in MeetingListMatches(lq, tm.meetings) <==>
        exists m | m in tm.meetings :: Matches(m.title, lq) && x == MeetingResultOf(m)
    {
      MeetingListMatchesMembers(lq, tm, x);
    }
  }

  /** The matches are exactly the activities, goal timelines and meetings whose title
      contains the lower-cased query; a goal gives one result per matching timeline. */
  lemma AllMatchesMembers(lq: string, acts: seq<Activity>, goals: seq<Goal>, teams: seq<Team>, x: SearchResult)
    ensures x in AllMatches(lq, acts, goals, teams) <==>
      (exists a | a in acts :: Matches(a.title, lq) && x == ActivityResultOf(a))
      || (exists g, t | g in goals && t in g.timelines :: Matches(GoalTimelineTitle(g, t), lq) && x == GoalResultOf(g, t))
      || (exists tm, m | tm in teams && m in tm.meetings :: Matches(m.title, lq) && x == MeetingResultOf(m))
  {
    FlatMapMembers(acts, (a: Activity) => if Matches(a.title, lq) then [ActivityResultOf(a)] else [], x);
    GoalMatchesMembers(lq, goals, x);
    MeetingMatchesMembers(lq, teams, x);
  }

  /** What the list promises: at most ten lines, each a match whose title contains the
      lower-cased query, exact titles before all others, and the lines in ranking order. */
  lemma SearchListProperties(q: string, acts: seq<Activity>, goals: seq<Goal>, teams: seq<Team>)
    ensures var r := SearchList(q, acts, goals, teams);
      |r| <= 10
      && (forall x | x in r :: x in AllMatches(Lower(q), acts, goals, teams) && Contains(Lower(x.title), Lower(q)))
      && (forall i, j | 0 <= i < j < |r| :: IsExact(r[j], Lower(q)) ==> IsExact(r[i], Lower(q)))
      && (forall i, j | 0 <= i < j < |r| :: LexLe(RankKey(Lower(q), r[i]), RankKey(Lower(q), r[j])))
  {
    var lq := Lower(q);
    var all := AllMatches(lq, acts, goals, teams);
    var key := RankBy(lq);
    var sorted := SortBy(all, key);
    SortBySorted(all, key);
    var r := SearchList(q, acts, goals, teams);
    assert r == sorted[..|r|];
    forall x | x in r ensures x in all && Contains(Lower(x.title), lq) {
      SortByMembers(all, key, x);
      AllMatchesMembers(lq, acts, goals, teams, x);
    }
    forall i, j | 0 <= i < j < |r| ensures LexLe(RankKey(lq, r[i]), RankKey(lq, r[j])) {
      assert r[i] == sorted[i] && r[j] == sorted[j];
    }
    forall i, j | 0 <= i < j < |r| ensures IsExact(r[j], lq) ==> IsExact(r[i], lq) {
      assert LexLe(RankKey(lq, r[i]), RankKey(lq, r[j]));
      LexLeHead(RankKey(lq, r[i]), RankKey(lq, r[j]));
    }
  }

  /** The matches of every kind, ranked, and the first ten of them. */
  method RankedSearch(q: string, acts: seq<Activity>, goals: seq<Goal>, teams: seq<Team>)
    returns (results: seq<SearchResult>)
    ensures results == SearchList(q, acts, goals, teams)
  {
    var lq := Lower(q);
    var fromActivities := CollectActivityResults(lq, acts);
    var fromGoals := CollectGoalResults(lq, goals);
    var fromMeetings := CollectMeetingResults(lq, teams);
    var found := fromActivities + fromGoals + fromMeetings;
    var ranked := SortBy(found, RankBy(lq));
    results := Take(ranked, 10);
  }

  method CollectActivityResults(lq: string, acts: seq<Activity>) returns (found: seq<SearchResult>)
    ensures found == ActivityMatches(lq, acts)
  {
    found := [];
    var i := 0;
    while i < |acts|
      invariant 0 <= i <= |acts|
      invariant found == ActivityMatches(lq, acts[..i])
    {
      assert acts[..i + 1][..i] == acts[..i];
      if Matches(acts[i].title, lq) {
        found := found + [ActivityResultOf(acts[i])];
      }
      i := i + 1;
    }
    assert acts[..i] == acts;
  }

  method CollectTimelineResults(lq: string, g: Goal) returns (found: seq<SearchResult>)
    ensures found == TimelineMatches(lq, g, g.timelines)
  {
    found := [];
    var j := 0;
    while j < |g.timelines|
      invariant 0 <= j <= |g.timelines|
      invariant found == TimelineMatches(lq, g, g.timelines[..j])
    {
      var t := g.timelines[j];
      assert g.timelines[..j + 1][..j] == g.timelines[..j];
      var combined := g.title + " - " + t.title;
      if Matches(combined, lq) || Matches(g.title, lq) || Matches(t.title, lq) {
        found := found + [GoalResultOf(g, t)];
      }
      j := j + 1;
    }
    assert g.timelines[..j] == g.timelines;
  }

  method CollectGoalResults(lq: string, goals: seq<Goal>) returns (found: seq<SearchResult>)
    ensures found == GoalMatches(lq, goals)
  {
    found := [];
    var i := 0;
    while i < |goals|
      invariant 0 <= i <= |goals|
      invariant found == GoalMatches(lq, goals[..i])
    {
      assert goals[..i + 1][..i] == goals[..i];
      var more := CollectTimelineResults(lq, goals[i]);
      found := found + more;
      i := i + 1;
    }
    assert goals[..i] == goals;
  }

  method CollectMeetingListResults(lq: string, tm: Team) returns (found: seq<SearchResult>)
    ensures found == MeetingListMatches(lq, tm.meetings)
  {
    found := [];
    var j := 0;
    while j < |tm.meetings|
      invariant 0 <= j <= |tm.meetings|
      invariant found == MeetingListMatches(lq, tm.meetings[..j])
    {
      assert tm.meetings[..j + 1][..j] == tm.meetings[..j];
      if Matches(tm.meetings[j].title, lq) {
        found := found + [MeetingResultOf(tm.meetings[j])];
      }
      j := j + 1;
    }
    assert tm.meetings[..j] == tm.meetings;
  }

  method CollectMeetingResults(lq: string, teams: seq<Team>) returns (found: seq<SearchResult>)
    ensures found == MeetingMatches(lq, teams)
  {
    found := [];
    var i := 0;
    while i < |teams|
      invariant 0 <= i <= |teams|
      invariant found == MeetingMatches(lq, teams[..i])
    {
      assert teams[..i + 1][..i] == teams[..i];
      var more := CollectMeetingListResults(lq, teams[i]);
      found := found + more;
      i := i + 1;
    }
    assert teams[..i] == teams;
  }

  /** The search box's state. */
  class SearchBox {
    var query: string
    var results: seq<SearchResult>
    var showResults: bool
    var currentDay: int
    var highlighted: Option<Highlight>

    constructor (day: int)
      ensures query == "" && results == [] && !showResults
      ensures currentDay == day && highlighted == None
    {
      query := "";
      results := [];
      showResults := false;
      currentDay := day;
      highlighted := None;
    }

    /** `performSearch`: a blank query empties and hides the list; any other query
        shows the ranked matches, at most ten. */
    method PerformSearch(q: string, acts: seq<Activity>, goals: seq<Goal>, teams: seq<Team>)
      modifies this
      ensures IsBlank(q) ==> results == [] && !showResults
      ensures !IsBlank(q) ==> results == SearchList(q, acts, goals, teams) && showResults
      ensures query == old(query) && currentDay == old(currentDay) && highlighted == old(highlighted)
    {
      if IsBlank(q) {
        results := [];
        showResults := false;
      } else {
        results := RankedSearch(q, acts, goals, teams);
        showResults := true;
      }
    }

    /** Typing in the box stores the query and searches with it. */
    method SearchChanged(q: string, acts: seq<Activity>, goals: seq<Goal>, teams: seq<Team>)
      modifies this
      ensures query == q
      ensures IsBlank(q) ==> results == [] && !showResults
      ensures !IsBlank(q) ==> results == SearchList(q, acts, goals, teams) && showResults
      ensures currentDay == old(currentDay) && highlighted == old(highlighted)
    {
      query := q;
      PerformSearch(q, acts, goals, teams);
    }

    /** Picking a result clears the query and the list, hides it, moves the calendar to
        the result's day and announces the item for highlighting. */
    method ResultClicked(r: SearchResult)
      modifies this
      ensures query == "" && results == [] && !showResults
      ensures currentDay == r.day
      ensures highlighted == Some(Highlight(r.kind, r.id, IdOrNull(r.timelineId)))
    {
      query := "";
      results := [];
      showResults := false;
      currentDay := r.day;
      highlighted := Some(Highlight(r.kind, r.id, IdOrNull(r.timelineId)));
    }
  }
}
