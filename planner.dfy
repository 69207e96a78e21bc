/** The planner's stored records as the backend hands them to the calendar views.
    A date is a day ordinal (consecutive calendar days are consecutive integers);
    a time of day is minutes since midnight, `None` when the field is empty; a creation
    time is milliseconds since the epoch, 0 when the record carries none. */
module Planner {
  import opened Common

  datatype Activity = Activity(
    id: int,
    title: string,
    date: int,
    start: Option<int>,
    end: Option<int>,
    urgency: string,
    createdAt: int)

  datatype Timeline = Timeline(
    id: int,
    title: string,
    startDate: int,
    endDate: int,
    start: Option<int>,
    end: Option<int>)

  datatype Goal = Goal(id: int, title: string, timelines: seq<Timeline>)

  datatype Meeting = Meeting(
    id: int,
    title: string,
    date: int,
    start: Option<int>,
    end: Option<int>,
    createdAt: int)

  datatype Team = Team(id: int, meetings: seq<Meeting>)

  /** Both the start and the end time are filled in. */
  predicate Timed(start: Option<int>, end: Option<int>) {
    start.Some? && end.Some?
  }

  /** Two timed intervals meet under the half-open test `start < otherEnd && end > otherStart`;
      an interval missing either time meets nothing. */
  predicate Clash(start: Option<int>, end: Option<int>, otherStart: Option<int>, otherEnd: Option<int>) {
    Timed(start, end) && Timed(otherStart, otherEnd)
    && start.value < otherEnd.value && end.value > otherStart.value
  }

  /** The goal-timeline label used by the conflict lists and the search box: "goal - timeline". */
  function GoalTimelineTitle(g: Goal, t: Timeline): string {
    g.title + " - " + t.title
  }
}
