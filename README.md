# PlanIt core in Dafny

PlanIt is a web planner. A user keeps **activities** (dated, optionally timed),
**goals** (each a list of dated, optionally timed **timelines**) and **teams** with
**meetings**. The planner shows them in a month calendar, a sidebar of past and upcoming
items and a search box. Team meetings can be planned with help from an AI service that
suggests times and reads events out of Gmail messages. A Flask service stores
everything.

This project models the planner's deterministic logic and proves properties of it:

- **Conflict detection.** The add and edit dialogs check a new or edited activity, goal
  timeline or meeting against everything stored.
  - Times are compared as half-open intervals and dates as inclusive ranges.
  - Untimed goal timelines are reported as "All day" conflicts.
  - Untimed activities and meetings are ignored, and two untimed timelines are never
    reported.
  - The edit versions leave out the item being edited.
  - Module `Overlaps` holds these checkers; `AddItemModal` and `EditItemModal` hold the
    dialogs' validators and list editors.
- **The calendar views.** Module `Sidebar` covers:
  - the 42-cell mini month with goal-day marks and most-urgent-item dots;
  - the ordering of past and upcoming items;
  - 12-hour times and ordinal suffixes.

  Module `CalendarGrid` covers:
  - the day columns;
  - the placement and overlap stacking of timed items;
  - goal timelines clipped to the month;
  - the hour labels.

  Module `Calendar` holds the Gregorian arithmetic, and `Planner` the stored records.
- **Search.** Module `Header` covers:
  - case-insensitive matching;
  - one result per matching goal timeline;
  - exact matches ranked first;
  - at most ten results;
  - the reset after a click.
- **The AI helper's deterministic parts** (module `AiService`):
  - the date and time validators;
  - extracting the JSON object from a reply;
  - filtering events and suggestions;
  - the per-member conflict lists.

  Module `ProfileSidebar` assembles a scheduling request from the participants'
  schedules, with its range checks and `unknown_<email>` placeholders. The add-item
  dialog's team form repeats the same steps
  (PlanIt-main/frontend/components/AddItemModal.jsx:531-735), so the same model covers
  it. `ProfileSidebar` also holds the invited-email list and the password form's checks.
- **Gmail.**
  - Module `GmailService` covers the MIME part search, the header lookup, the choice of
    body, the `Re:`/`Fwd:` subjects and the base64url alphabet of section 5 of RFC 4648.
  - Module `GmailInbox` covers the inbox's message list, its reply and forward guards,
    and turning the events found in a message into activities.
- **Notifications, registration and login.** Module `NotificationSidebar` covers:
  - which invitations can be answered;
  - the status labels;
  - the list updates;
  - the age buckets.

  Modules `RegisterPage` and `LoginPage` hold the form validators and field-error
  clearing.
- **The Flask service's rules** (module `Backend`):
  - `format_time_to_hhmm` and `parse_time_from_hhmm`, and their round trip;
  - the grouping of joined goal/timeline rows;
  - the request validation of registration, login, password change and invitation
    responses;
  - the invitation-status rule;
  - the profile-picture rule;
  - the last-timeline guard;
  - the unread count.

**How values are represented.**
- A date is a day ordinal: consecutive days have consecutive integers, and zero-padded
  `YYYY-MM-DD` texts compare as their ordinals do. A creation instant is milliseconds
  since the epoch.
- A time of day is `Option<int>` minutes since midnight; `None` stands for an empty
  field.
- A text field the source reads with `new Date(...)` is a `DateText`: a date, an
  unreadable text, or nothing.
- A `forEach` that pushes is modelled as `Common.FlatMap`.
- A comparator passed to `sort` is modelled as a key into integer sequences ordered
  lexicographically; `Sorting.SortBy` is proved to return a sorted permutation.

**Imperative code stays imperative.** Each loop of the source is a `method` proved
against the function that specifies it. Examples:
- the overlap checkers;
- the grid builders;
- the `goalDates` walk;
- the search collectors;
- `get_goals`' grouping loop;
- the per-member loops of the scheduling code;
- `findPart`;
- the activity-creation loop.

State that a component updates in place is a `class` whose methods state the whole new
state. These cover:
- the edit dialog;
- the search box;
- the meeting draft;
- the notification panel;
- the inbox;
- the register and login forms.

**Where the code is followed rather than the intent.**
- `getInvitationStatusDisplay` shows "Declined" for every answered status other than
  "accepted", not only for "declined".
- `isValidDate` in the AI helper accepts any day from 01 to 31 in any month, as the
  JavaScript date parser does. "2023-02-30" therefore passes, and the Flask service
  then refuses it.
- The password form counts UTF-16 code units while the service counts characters. Three
  characters outside the Basic Multilingual Plane pass the form and are refused by the
  service (`ProfileSidebar.FormPassesWhatServiceRefuses`).
- The AI helper's per-member schedule analysis (`AiService.ScheduleAnalysis`) uses the
  member lookup as written, so members with numeric ids are listed under their raw ids
  (`AiService.AsWrittenAnalysisKeys`). The intended lookup is kept as a second
  instance of the same definitions (`NameLookup.ByKey`) and is the subject of the
  finding below.

## Model

| member | source | states |
|---|---|---|
| Overlaps.CollectDayActivities | PlanIt-main/frontend/components/AddItemModal.jsx:287-301 | the pass over the stored activities pushes exactly the list `DayActivityHits` describes: same day, both times present, half-open intersection |
| Overlaps.CollectDayGoal | PlanIt-main/frontend/components/AddItemModal.jsx:306-331 | the pass over one goal's timelines pushes the timelines whose inclusive range holds the day; a timed one only when its times intersect, an untimed one always, labelled "All day" |
| Overlaps.CollectDayTimelines | PlanIt-main/frontend/components/AddItemModal.jsx:304-333 | the pass over every goal concatenates the per-goal lists in goal order |
| Overlaps.CollectDayTeam | PlanIt-main/frontend/components/AddItemModal.jsx:338-352 | the pass over one team's meetings pushes the same-day, timed, intersecting meetings |
| Overlaps.CollectDayMeetings | PlanIt-main/frontend/components/AddItemModal.jsx:336-354 | the pass over every team concatenates the per-team lists in team order |
| Overlaps.CheckDayItemOverlaps | PlanIt-main/frontend/components/AddItemModal.jsx:276-357 | `checkActivityOverlaps` returns `DayItemOverlaps`: [] when either time of the new item is empty, else the activity, timeline and meeting conflicts in that order |
| Overlaps.DayGoalHitsMembers | PlanIt-main/frontend/components/AddItemModal.jsx:306-331 | a conflict comes from one goal exactly when some timeline of it is reported and the conflict is that timeline's entry |
| Overlaps.DayTeamHitsMembers | PlanIt-main/frontend/components/AddItemModal.jsx:338-352 | a conflict comes from one team exactly when some meeting of it is reported and the conflict is that meeting's entry |
| Overlaps.DayItemOverlapsMembers | PlanIt-main/frontend/components/AddItemModal.jsx:276-357 | an entry is in the list iff the new item has both times and it is the entry of a reported activity (same day, timed, half-open intersection), of a timeline whose inclusive range holds the day and that is untimed or intersects, or of a same-day timed intersecting meeting; touching intervals and untimed activities or meetings are never reported |
| Overlaps.CollectSpanActivities | PlanIt-main/frontend/components/AddItemModal.jsx:370-404 | the pass over the activities for a new timeline pushes each activity dated inside the inclusive range unless both sides are timed and apart; an untimed one is labelled by its start time or "All day" |
| Overlaps.CollectSpanGoal | PlanIt-main/frontend/components/AddItemModal.jsx:409-436 | the pass over one goal's timelines pushes only timed timelines whose range meets the new one inclusively and whose times intersect, with the "start to end" date line |
| Overlaps.CollectSpanTimelines | PlanIt-main/frontend/components/AddItemModal.jsx:407-438 | the pass over every goal concatenates the per-goal lists, leaving out the goal given as skipped |
| Overlaps.CollectSpanTeam | PlanIt-main/frontend/components/AddItemModal.jsx:443-475 | the pass over one team's meetings for a new timeline, with the same rule as the activities |
| Overlaps.CollectSpanMeetings | PlanIt-main/frontend/components/AddItemModal.jsx:441-477 | the pass over every team concatenates the per-team lists |
| Overlaps.CheckTimelineOverlaps | PlanIt-main/frontend/components/AddItemModal.jsx:359-480 | `checkGoalTimelineOverlaps` returns `SpanOverlaps`: [] when either date is empty, else the activity, timeline and meeting conflicts in order |
| Overlaps.SpanGoalHitsMembers | PlanIt-main/frontend/components/AddItemModal.jsx:409-436 | a conflict comes from one goal exactly when one of its timelines is reported and the conflict is its entry |
| Overlaps.SpanTeamHitsMembers | PlanIt-main/frontend/components/AddItemModal.jsx:443-475 | a conflict comes from one team exactly when one of its meetings is reported and the conflict is its entry |
| Overlaps.SpanOverlapsMembers | PlanIt-main/frontend/components/AddItemModal.jsx:359-480 | an entry is in a timeline's list iff both dates are given and it is the entry of an activity or meeting dated in the inclusive range that is not timed-and-apart, or of a timeline of a goal that is not skipped whose range meets the new one and whose times, both given, intersect |
| Overlaps.WithoutMeeting | PlanIt-main/frontend/components/EditItemModal.jsx:556-558 | the team list with one meeting id taken out keeps one team per team |
| Overlaps.SkipActivityIsFilter | PlanIt-main/frontend/components/EditItemModal.jsx:297 | skipping the edited activity id gives the same list as checking against the activities without that id |
| Overlaps.SkipMeetingTeams | PlanIt-main/frontend/components/EditItemModal.jsx:556-558 | skipping the edited meeting while walking the teams gives the same meeting conflicts as walking the teams with that meeting removed |
| Overlaps.SkipMeetingIsFilter | PlanIt-main/frontend/components/EditItemModal.jsx:495-577 | the whole meeting check with the edited meeting skipped equals the check against the teams without it |
| Overlaps.SkipGoalIsFilter | PlanIt-main/frontend/components/EditItemModal.jsx:418-419 | skipping the edited goal gives the same list as checking against the goals without that id |
| EditItemModal.CheckActivityOverlaps | PlanIt-main/frontend/components/EditItemModal.jsx:285-368 | the edit dialog's activity check is the add dialog's check against the stored activities minus the edited one, so the edited activity is never reported |
| EditItemModal.CheckGoalTimelineOverlaps | PlanIt-main/frontend/components/EditItemModal.jsx:370-493 | every timeline of the edited goal is left out while activities and meetings are still checked: the add dialog's check against the other goals |
| EditItemModal.CheckMeetingOverlaps | PlanIt-main/frontend/components/EditItemModal.jsx:495-577 | [] when the meeting lacks a start or an end; otherwise the day check (untimed timelines on the day as "All day", untimed activities and meetings ignored) against the teams with the edited meeting removed |
| EditItemModal.WithoutMeetingDropsIt | PlanIt-main/frontend/components/EditItemModal.jsx:558 | no meeting left in the stripped team list has the edited meeting's id |
| EditItemModal.ValidateMeetingForm | PlanIt-main/frontend/components/EditItemModal.jsx:611-621 | passes iff the title is not blank and a date is given; "Meeting title is required" for a blank title, else "Meeting date is required" for a missing date |
| EditItemModal.RemoveMember | PlanIt-main/frontend/components/EditItemModal.jsx:276-283 | the members left are exactly the old ones with another user id, the member is appended to the removed list, and every other field is unchanged |
| EditItemModal.UserIds | PlanIt-main/frontend/components/EditItemModal.jsx:789 | the ids of the members, one per member, in order |
| EditItemModal.MeetingById | PlanIt-main/frontend/components/EditItemModal.jsx:780 | the result is absent exactly when no meeting has the id, and otherwise is the first meeting with it |
| EditItemModal.TeamWithMeeting | PlanIt-main/frontend/components/EditItemModal.jsx:779 | the index found is that of the first team holding a meeting with the id, and is past the end exactly when no team holds one |
| EditItemModal.OriginalMeeting | PlanIt-main/frontend/components/EditItemModal.jsx:779-780 | the result is absent exactly when no team holds a meeting with the id, and otherwise is that meeting as found in the first team that holds one |
| EditItemModal.BuildMeetingPayload | PlanIt-main/frontend/components/EditItemModal.jsx:779-790 | the form fields are copied, the new e-mails are exactly the non-blank ones entered, in their order, the removed ids are the removed members' ids in removal order, and the original meeting is present exactly when some team holds the edited id and then is a stored meeting with that id |
| EditItemModal.EditDialog.constructor | PlanIt-main/frontend/components/EditItemModal.jsx:33-53 | the dialog holds the meeting and timelines it is opened with |
| EditItemModal.EditDialog.RemoveTimeline | PlanIt-main/frontend/components/EditItemModal.jsx:241-247 | the timeline list becomes `RemoveUnlessLast` of the old one and never empties; the meeting is unchanged |
| EditItemModal.EditDialog.RemoveNewMemberEmail | PlanIt-main/frontend/components/EditItemModal.jsx:265-274 | only the new-member e-mail list changes, to `RemoveUnlessLast` of the old one, and it never empties |
| EditItemModal.EditDialog.RemoveMemberClicked | PlanIt-main/frontend/components/EditItemModal.jsx:276-283 | the meeting becomes `RemoveMember` of the old one; the timelines are unchanged |
| AddItemModal.ValidateActivityForm | PlanIt-main/frontend/components/AddItemModal.jsx:482-492 | passes iff the title is not blank and a date is given, with the message for the first failing check |
| AddItemModal.ValidateGoalForm | PlanIt-main/frontend/components/AddItemModal.jsx:494-510 | passes iff the title is not blank and some timeline has a non-blank title and both dates; "Goal title is required" first, else the timeline message |
| AddItemModal.ValidateTeamForm | PlanIt-main/frontend/components/AddItemModal.jsx:512-529 | passes iff the team name is not blank and some meeting has a non-blank title, a date and a non-blank invited e-mail; "Team name is required" first, else the meeting message |
| AddItemModal.AddDialog.constructor | PlanIt-main/frontend/components/AddItemModal.jsx:37-69 | the dialog opens with one empty timeline and one empty meeting with one empty invitee |
| AddItemModal.AddDialog.RemoveTimeline | PlanIt-main/frontend/components/AddItemModal.jsx:202-208 | the timeline list becomes `RemoveUnlessLast` of the old one and never empties; the meetings are unchanged |
| AddItemModal.AddDialog.RemoveMeeting | PlanIt-main/frontend/components/AddItemModal.jsx:268-274 | the meeting list becomes `RemoveUnlessLast` of the old one and never empties; the timelines are unchanged |
| AddItemModal.AddDialog.RemoveInvitedEmail | PlanIt-main/frontend/components/AddItemModal.jsx:240-246 | only that meeting's invitee list changes, to `RemoveUnlessLast` of the old one; every other meeting and field is unchanged |
| Common.RemoveUnlessLast | PlanIt-main/frontend/components/AddItemModal.jsx:202-208 | a non-empty list never becomes empty, a single entry is never removed, otherwise exactly the entry at the index (negative indices counted from the end, as `splice` does) goes, and nothing is added |
| Sidebar.SecondPiece | PlanIt-main/frontend/components/Sidebar.jsx:332 | the second `:`-separated piece of a time string exists exactly when the string holds a colon, and holds no colon itself |
| Sidebar.TimeStringToMinutes | PlanIt-main/frontend/components/Sidebar.jsx:330-334 | an empty time string has no minute value; any other string yields a number or NaN |
| Sidebar.TimeStringToMinutesOfDigits | PlanIt-main/frontend/components/Sidebar.jsx:330-334 | a digit-only `HH:MM`, with or without seconds, reads as 60 × hours + minutes |
| Sidebar.MinutesOfPieces | PlanIt-main/frontend/components/Sidebar.jsx:330-334 | whenever the first two pieces are digit strings the result is 60 × hours + minutes |
| Sidebar.ClockPieces | PlanIt-main/frontend/components/Sidebar.jsx:332 | splitting `HH:MM[:SS]` at colons gives back the hours and the minutes text unchanged |
| Sidebar.DeadlineOrder | PlanIt-main/frontend/components/Sidebar.jsx:438-444 | comparing deadlines by instant agrees with comparing them by day when the days differ |
| Sidebar.PastCompareIsKeyOrder | PlanIt-main/frontend/components/Sidebar.jsx:436-459 | the past list's comparator says "not after" exactly when the key (later day first, non-goal before goal, start minute, end minute) is lexicographically not greater, and "equal" exactly on equal keys |
| Sidebar.UpcomingCompareIsKeyOrder | PlanIt-main/frontend/components/Sidebar.jsx:550-566 | the upcoming comparator is the lexicographic order on (day, start minute, end minute), with "equal" exactly on equal keys |
| Sidebar.LexLe3 | PlanIt-main/frontend/components/Sidebar.jsx:550-566 | lexicographic order on three-number keys spelled out field by field |
| Sidebar.LexLe4 | PlanIt-main/frontend/components/Sidebar.jsx:436-459 | lexicographic order on four-number keys spelled out field by field |
| Sidebar.PastTimelinesMembers | PlanIt-main/frontend/components/Sidebar.jsx:377-403 | one goal contributes exactly one past line per timeline whose end instant is before now |
| Sidebar.PastTeamMeetingsMembers | PlanIt-main/frontend/components/Sidebar.jsx:405-430 | one team contributes exactly its meetings whose end instant is before now |
| Sidebar.PastItemsMembers | PlanIt-main/frontend/components/Sidebar.jsx:353-460 | the past list holds exactly the activities, goal timelines and team meetings whose end instant is before now, in both directions |
| Sidebar.PastItemsOrdered | PlanIt-main/frontend/components/Sidebar.jsx:432-459 | the past list is a permutation of the collected items and every earlier entry is "before" every later one under the comparator |
| Sidebar.PastSortedBefore | PlanIt-main/frontend/components/Sidebar.jsx:436-459 | a list sorted by the past key is ordered pairwise by the past comparator |
| Sidebar.UntimedLastInPast | PlanIt-main/frontend/components/Sidebar.jsx:336-342 | within one day and group an item without a start time (sentinel 9999) is followed only by other untimed items |
| Sidebar.UpcomingGoalDays | PlanIt-main/frontend/components/Sidebar.jsx:492-515 | the expansion of a day range has one goal line per day, day `lo + k` at position `k` |
| Sidebar.UpcomingTimelineDays | PlanIt-main/frontend/components/Sidebar.jsx:488-495 | a day lies in a timeline and in the next 30 days exactly when it lies between the loop's first and last day |
| Sidebar.ExpandUpcomingTimeline | PlanIt-main/frontend/components/Sidebar.jsx:486-516 | the day-by-day loop over one timeline produces exactly the goal lines of its days from max(start, today) to min(end, today + 30) |
| Sidebar.UpcomingGoalDaysMembers | PlanIt-main/frontend/components/Sidebar.jsx:486-516 | a timeline's upcoming lines are exactly one per day of it that is within the next 30 days |
| Sidebar.UpcomingTimelinesMembers | PlanIt-main/frontend/components/Sidebar.jsx:484-518 | a goal's upcoming lines are exactly one per (timeline, day) pair within the next 30 days |
| Sidebar.UpcomingTeamMeetingsMembers | PlanIt-main/frontend/components/Sidebar.jsx:520-546 | a team contributes exactly its meetings dated within the next 30 days |
| Sidebar.UpcomingItemsMembers | PlanIt-main/frontend/components/Sidebar.jsx:462-566 | the upcoming list holds exactly the activities and meetings dated within the next 30 days and one line per timeline day in that window, in both directions |
| Sidebar.UpcomingItemsOrdered | PlanIt-main/frontend/components/Sidebar.jsx:550-566 | the upcoming list is a permutation of the collected items, ordered pairwise by the comparator |
| Sidebar.UpcomingSortedBefore | PlanIt-main/frontend/components/Sidebar.jsx:550-566 | a list sorted by the upcoming key is ordered pairwise by the upcoming comparator |
| Sidebar.UntimedLastInUpcoming | PlanIt-main/frontend/components/Sidebar.jsx:336-342 | on one day an untimed item is followed only by untimed items |
| Sidebar.LeadingDays | PlanIt-main/frontend/components/Sidebar.jsx:222-223 | the number of leading cells is the first day's weekday, below 7 |
| Sidebar.PrevMonthLength | PlanIt-main/frontend/components/Sidebar.jsx:229-230 | the previous month has 28 to 31 days |
| Sidebar.PrevMonthCells | PlanIt-main/frontend/components/Sidebar.jsx:227-237 | the leading loop gives `lead` cells numbered from `count - lead + 1` up to the previous month's last day |
| Sidebar.NumberedCells | PlanIt-main/frontend/components/Sidebar.jsx:239-256 | the month's loop (and the trailing loop) give cells numbered 1, 2, … of the given part, as many as asked |
| Sidebar.Weeks | PlanIt-main/frontend/components/Sidebar.jsx:260-264 | 42 cells cut into 6 rows, row `w` being cells `7w` to `7w + 6` |
| Sidebar.MonthGrid | PlanIt-main/frontend/components/Sidebar.jsx:222-264 | the grid is 6 rows of 7 cells and cell (w, i) is the layout's cell `7w + i` |
| Sidebar.GridLayout | PlanIt-main/frontend/components/Sidebar.jsx:222-258 | the leading cells are the previous month's last days in ascending order, the month's days follow in place, the next month's days 1, 2, … fill the rest, and "current" cells are exactly the month's days |
| Sidebar.GridColumnIsWeekday | PlanIt-main/frontend/components/Sidebar.jsx:222-244 | each day of the month sits in the column of its own weekday, Sunday first |
| Sidebar.DayRange | PlanIt-main/frontend/components/Sidebar.jsx:70-73 | the days marked for one range are exactly `lo` through `hi` |
| Sidebar.TimelineDaysMembers | PlanIt-main/frontend/components/Sidebar.jsx:62-74 | a day is marked by a goal's timelines exactly when some timeline's inclusive range holds it |
| Sidebar.GoalDaysMembers | PlanIt-main/frontend/components/Sidebar.jsx:58-78 | a day is marked exactly when some timeline of some goal covers it |
| Sidebar.AddTimelineDays | PlanIt-main/frontend/components/Sidebar.jsx:69-73 | the day-by-day loop adds exactly the timeline's days to the set |
| Sidebar.CollectGoalDates | PlanIt-main/frontend/components/Sidebar.jsx:57-78 | the nested loops over goals and timelines build exactly the set of marked days |
| Sidebar.UrgencyPriority | PlanIt-main/frontend/components/Sidebar.jsx:322 | the five urgency levels rank 1 to 5 and every other text ranks 0 |
| Sidebar.MostUrgentIndex | PlanIt-main/frontend/components/Sidebar.jsx:323-325 | the reduce picks a position of highest rank, the first such one, since a later item replaces only on strictly higher rank |
| Sidebar.MostUrgentForCell | PlanIt-main/frontend/components/Sidebar.jsx:293-327 | nothing for a cell outside the shown month or a day without items; otherwise one of the day's items of highest rank, the earliest among equals |
| Sidebar.DayTeamMeetingsMembers | PlanIt-main/frontend/components/Sidebar.jsx:301-314 | a team's items for a day are exactly its meetings on that day, ranked "medium-high" |
| Sidebar.DayItemsMembers | PlanIt-main/frontend/components/Sidebar.jsx:297-320 | a day's items are exactly its activities and every team's meetings on it |
| Sidebar.FormatTime | PlanIt-main/frontend/components/Sidebar.jsx:569-576 | no text exactly for an empty time string |
| Sidebar.FormatTimeOfPieces | PlanIt-main/frontend/components/Sidebar.jsx:569-576 | a digit hour shows as its 12-hour value, the minute text as written, and PM from hour 12 on |
| Sidebar.FormatTimeCases | PlanIt-main/frontend/components/Sidebar.jsx:573-575 | hour 0 shows as 12 AM, 1 to 11 as AM, 12 as 12 PM and 13 to 23 as the hour less 12 PM |
| Sidebar.FormatTimeOfClock | PlanIt-main/frontend/components/Sidebar.jsx:569-576 | the same four cases for any `HH:MM[:SS]` string of a 24-hour day |
| Sidebar.JsRem10 | PlanIt-main/frontend/components/Sidebar.jsx:601 | JavaScript's remainder by 10 lies strictly between -10 and 10 and takes the dividend's sign |
| Sidebar.OrdinalSuffix | PlanIt-main/frontend/components/Sidebar.jsx:600-611 | for days 1 to 31: "st" exactly on 1, 21, 31; "nd" on 2, 22; "rd" on 3, 23; "th" on every other day |
| CalendarGrid.ItemTimeSpan | PlanIt-main/frontend/components/CalendarGrid.jsx:205-237 | an item missing either time is drawn for one hour from midnight; a timed one from its start minute for its length, never under 30 minutes (the larger of the two) |
| CalendarGrid.DayTeamBlocksMembers | PlanIt-main/frontend/components/CalendarGrid.jsx:184-203 | a team's blocks on a day are exactly its meetings dated that day |
| CalendarGrid.DayBlocksContents | PlanIt-main/frontend/components/CalendarGrid.jsx:724-732 | a day column holds exactly the activities and meetings dated that day, in both directions, ordered by creation time |
| CalendarGrid.OverlapCount | PlanIt-main/frontend/components/CalendarGrid.jsx:747-760 | an item's stacking depth is the number of earlier items of the column that share a minute with it, so it is at most its position and is 0 exactly when no earlier item meets it |
| CalendarGrid.BlockOf | PlanIt-main/frontend/components/CalendarGrid.jsx:251-291 | a timeline's block is clipped to the month: it starts at the later start and ends at the earlier end, stays inside the month's columns, spans at least one day, and is marked partial exactly at a side where the timeline runs past the month |
| CalendarGrid.GoalBlocksMembers | PlanIt-main/frontend/components/CalendarGrid.jsx:247-293 | one goal's blocks are exactly those of its timelines that share a day with the month, each with its own index |
| CalendarGrid.MonthBlocksMembers | PlanIt-main/frontend/components/CalendarGrid.jsx:239-297 | the month's blocks are exactly one per (goal, timeline) pair sharing a day with the month |
| CalendarGrid.MonthLast | PlanIt-main/frontend/components/CalendarGrid.jsx:240-241 | the month's first and last days are `DaysInMonth` days apart, inclusive |
| CalendarGrid.CollectGoalBlocks | PlanIt-main/frontend/components/CalendarGrid.jsx:247-293 | the loop over one goal's timelines builds exactly that goal's block list |
| CalendarGrid.GoalTimelinesForMonth | PlanIt-main/frontend/components/CalendarGrid.jsx:239-297 | the loop over all goals builds exactly the month's block list |
| CalendarGrid.HourLabelIsTwelveHourClock | PlanIt-main/frontend/components/CalendarGrid.jsx:158-163 | each row label is the hour on the 12-hour clock the sidebar shows, then AM for hours 0 to 11 and PM for 12 to 23 |
| CalendarGrid.TimeSlots | PlanIt-main/frontend/components/CalendarGrid.jsx:157-163 | the loop builds 24 rows, row `h` for hour `h` with its label |
| CalendarGrid.MonthDays | PlanIt-main/frontend/components/CalendarGrid.jsx:76-84 | one column per day of the month, starting on its first day and increasing by one day |
| Calendar.DaysInMonth | PlanIt-main/frontend/components/CalendarGrid.jsx:78 | a month has 28 to 31 days, and February has 29 exactly in a leap year |
| Calendar.Weekday | PlanIt-main/frontend/components/Sidebar.jsx:223 | the weekday is a column 0..6; `Calendar.WeekdayAnchors` ties 0 to Sunday |
| Calendar.WeekdayAnchors | PlanIt-main/frontend/components/Sidebar.jsx:222-223 | day 0 is 1970-01-01, a Thursday (4); 2024-09-01 is a Sunday (0); each next day's weekday is one further on, modulo 7 |
| Calendar.PrevMonth | PlanIt-main/frontend/components/Sidebar.jsx:229 | the month before January is December of the year before; any other month steps back by one |
| Calendar.DayOrdinalInMonth | PlanIt-main/frontend/components/CalendarGrid.jsx:80-82 | the days of one month have consecutive day numbers |
| Calendar.MarchYearLength | PlanIt-main/frontend/components/CalendarGrid.jsx:78 | the year from 1 March of `x - 1` to 1 March of `x` has 366 days exactly when `x` is a leap year, and 365 otherwise |
| Calendar.NextMonthFollows | PlanIt-main/frontend/components/CalendarGrid.jsx:78-82 | the first day of a month comes right after the last day of the month before, in the same year |
| Calendar.NextYearFollows | PlanIt-main/frontend/components/Sidebar.jsx:228-230 | 1 January comes right after 31 December of the year before |
| Calendar.NextDayFollows | PlanIt-main/frontend/components/CalendarGrid.jsx:78-82 | the day after any valid date has the next ordinal, whether it falls in the same month, the next month or the next year |
| Header.GoalTimelineMatchesCombined | PlanIt-main/frontend/components/Header.jsx:151-156 | the goal test's three alternatives reduce to the combined "goal - timeline" title alone, since that title contains both parts |
| Header.CharCodes | PlanIt-main/frontend/components/Header.jsx:191 | a title's character codes, one per character, in order |
| Header.TimelineMatchesMembers | PlanIt-main/frontend/components/Header.jsx:150-167 | a goal gives exactly one result per timeline whose combined title contains the query |
| Header.GoalMatchesMembers | PlanIt-main/frontend/components/Header.jsx:148-168 | the goal results are exactly one per matching (goal, timeline) pair |
| Header.MeetingListMatchesMembers | PlanIt-main/frontend/components/Header.jsx:172-182 | a team gives exactly its meetings whose title contains the query |
| Header.MeetingMatchesMembers | PlanIt-main/frontend/components/Header.jsx:170-184 | the meeting results are exactly the matching meetings of every team |
| Header.AllMatchesMembers | PlanIt-main/frontend/components/Header.jsx:133-184 | the matches are exactly the activities, goal timelines and meetings whose lower-cased title contains the lower-cased query, in both directions |
| Header.SearchListProperties | PlanIt-main/frontend/components/Header.jsx:186-194 | the list shown has at most ten lines, each a match containing the query, exact titles before all others and the lines in ranking order |
| Header.RankedSearch | PlanIt-main/frontend/components/Header.jsx:133-194 | collecting the three kinds, ranking them and keeping ten gives exactly the specified search list |
| Header.CollectActivityResults | PlanIt-main/frontend/components/Header.jsx:136-146 | the loop over activities pushes exactly the matching activity results, in order |
| Header.CollectTimelineResults | PlanIt-main/frontend/components/Header.jsx:150-167 | the loop over one goal's timelines pushes exactly its matching timeline results |
| Header.CollectGoalResults | PlanIt-main/frontend/components/Header.jsx:148-168 | the loop over goals concatenates the per-goal results in goal order |
| Header.CollectMeetingListResults | PlanIt-main/frontend/components/Header.jsx:172-182 | the loop over one team's meetings pushes exactly its matching meeting results |
| Header.CollectMeetingResults | PlanIt-main/frontend/components/Header.jsx:170-184 | the loop over teams concatenates the per-team results in team order |
| Header.SearchBox.constructor | PlanIt-main/frontend/components/Header.jsx:8-10 | the box starts with an empty query, no results, the list hidden and nothing highlighted |
| Header.SearchBox.PerformSearch | PlanIt-main/frontend/components/Header.jsx:126-196 | a blank query empties and hides the list; any other query shows the ranked search list; the query, day and highlight stay |
| Header.SearchBox.SearchChanged | PlanIt-main/frontend/components/Header.jsx:198-202 | typing stores the query and then searches with it |
| Header.IdOrNull | PlanIt-main/frontend/components/Header.jsx:225 | an id is sent exactly when it is present and not 0, and then unchanged |
| Header.SearchBox.ResultClicked | PlanIt-main/frontend/components/Header.jsx:204-229 | picking a result clears the query and the list, hides it, moves the calendar to the result's day and announces that item for highlighting, a timeline id of 0 being sent as none |
| Backend.Split | backend/app.py:72 | Python's `split` gives at least one piece and no piece holds the separator |
| Backend.JoinSplit | backend/app.py:72 | joining the pieces of a split with the separator gives back the text |
| Backend.SplitTwo | backend/app.py:72 | a text with one separator splits into exactly its two sides |
| Backend.StrpClock | backend/app.py:57-62 | `strptime` with `%H:%M:%S` needs three colon-separated fields, with `%H:%M` two, and the short form has second 0 |
| Backend.StrfHHMM | backend/app.py:58 | `strftime('%H:%M')` is five characters with the colon in the middle |
| Backend.FormatTimeToHHMM | backend/app.py:51-65 | the result is None exactly for a NULL value |
| Backend.ParseTimeFromHHMM | backend/app.py:67-77 | an empty or missing text gives None; a parsed two-field text has second 0; only texts of two or three fields parse |
| Backend.Pad2OfDigits | backend/app.py:58 | a two-digit text is the zero-padded form of its own value |
| Backend.ClockTextSplits | backend/app.py:72 | "HH:MM" of digit fields splits into the hour and minute texts |
| Backend.FormatAfterParse | backend/app.py:51-77 | storing a canonical "HH:MM" and formatting it again gives the same text |
| Backend.ParseAfterFormat | backend/app.py:51-77 | formatting a time and parsing the text keeps its hour and minute and sets the second to 0 |
| Backend.FormatDropsSeconds | backend/app.py:55-58 | a valid "HH:MM:SS" text loses its seconds |
| Backend.FormatPadsHour | backend/app.py:59-62 | a valid "H:MM" with a one-digit hour gains its leading zero |
| Backend.FormatKeepsOtherText | backend/app.py:63-64 | a text that is neither form is returned unchanged |
| Backend.FormatOfFormatted | backend/app.py:51-65 | a formatted time text formats to itself |
| Backend.FormatIdempotent | backend/app.py:51-65 | formatting is idempotent on every non-NULL value |
| Backend.RowIds | backend/app.py:520-521 | the goal id of each joined row, in row order |
| Backend.Dedup | backend/app.py:520-530 | the distinct goal ids, each once, exactly the ids that occur |
| Backend.FirstIndex | backend/app.py:522 | the position of a value's first occurrence |
| Backend.DedupFirstAppearance | backend/app.py:520-545 | the dictionary's keys come in the order in which each goal first appears among the rows |
| Backend.FirstRowOf | backend/app.py:522-530 | a goal's first row exists exactly when some row carries the goal's id, and is the earliest such row |
| Backend.TimelinesOfMembers | backend/app.py:532-540 | a timeline is listed under a goal exactly when a row of that goal carries it |
| Backend.TimelinesOfEmpty | backend/app.py:532 | a goal whose rows carry no timeline (the NULL side of the join, or id 0) gets an empty list |
| Backend.AddGoalRow | backend/app.py:520-540 | one iteration of the row loop keeps the dictionary equal to the one of the rows read so far |
| Backend.GroupGoalRows | backend/app.py:519-543 | `get_goals` returns one entry per distinct goal id in first-appearance order, each the goal's first-row columns with all of its timelines in row order |
| Backend.DayField | backend/app.py:98 | a parsed `%d` field lies between 1 and 31 |
| Backend.StrpDate | backend/app.py:98 | a parsed date has exactly three `-`-separated fields |
| Backend.SplitDateFields | backend/app.py:98 | fields without '-' joined by '-' split back into those fields |
| Backend.StrpDateOfCanonical | backend/app.py:98 | a zero-padded "YYYY-MM-DD" of an existing day parses to that day |
| Backend.StrpDateRejectsMissingDay | backend/app.py:98-100 | a day past the end of its month does not parse |
| Backend.Register | backend/app.py:79-145 | registration succeeds exactly when name and e-mail are given, a password or a Google id is given, a given birth date parses, and neither the e-mail nor a given Google id is on file; a Google account is stored with its picture and no password, any other with a password and no picture; every refusal is a 400 or a 409 |
| Backend.Login | backend/app.py:147-223 | the three request errors with their texts; login succeeds exactly when exactly one of Google id and password is given, the account exists, and it is a Google login or the stored hash matches; the session lasts 30 days with "remember me" and 1 otherwise; a stored picture is kept; the Google flag is whether the key was sent |
| Backend.LoginGoogleFlagOfEmptyId | backend/app.py:213 | a password login that also sends an empty Google id is reported as a Google user |
| Backend.PictureChangeOf | backend/app.py:1685-1694 | a missing picture clears it, a non-empty one sets it and an empty text keeps it |
| Backend.UpdateUser | backend/app.py:1677-1771 | a missing name is a 400 and an unknown user a 404, and nothing else fails; on success the name and bio are the request's, the birth date is the parsed one (an unreadable one becomes none), and the picture follows the three-way rule |
| Backend.ChangePassword | backend/app.py:1773-1826 | the change goes through exactly when both passwords are given, the new one has at least 6 characters, the user exists, is not a Google user, has a stored hash and the current password matches it; the too-short and Google-user refusals carry their texts |
| Backend.InitialStatus | backend/app.py:802 | a mandatory invitation is stored as accepted and every other kind as pending |
| Backend.NewInvitation | backend/app.py:1195 | a new invitation carries the meeting, the user and the kind, and is pending exactly when the kind is not mandatory |
| Backend.RespondToInvitation | backend/app.py:1575-1629 | only "accepted" or "declined" is taken; it succeeds exactly when a non-zero user id is given and that user has an invitation to the meeting; then exactly those invitations take the response and exactly that user's notices about the meeting are marked read |
| Backend.Without | backend/app.py:685 | deleting rows never adds any |
| Backend.WithoutAbsent | backend/app.py:685 | deleting an id that no row has leaves the rows unchanged |
| Backend.WithoutPresentLength | backend/app.py:685 | with unique ids, deleting an id that a row has removes exactly one row |
| Backend.FindTimeline | backend/app.py:674 | the id subquery finds a row exactly when one has the id |
| Backend.DeleteTimeline | backend/app.py:662-704 | an unknown id is a 404; a deletion that goes through removed a timeline whose goal had more than one, and leaves exactly the other rows |
| Backend.DeleteTimelineOkIff | backend/app.py:670-688 | with unique ids, a deletion goes through exactly when the timeline exists and its goal has more than one |
| Backend.CountWithoutAll | backend/app.py:685 | removing the rows with an id takes exactly those rows off each goal's count |
| Backend.MatchCountUnique | backend/app.py:685 | with unique ids, at most one row matches an id and goal, and one does exactly when it exists |
| Backend.CountWithout | backend/app.py:685 | removing one row lowers its goal's count by one and leaves the other goals' counts |
| Backend.KeepsLastTimeline | backend/app.py:679-680 | a goal that has a timeline before a successful deletion still has one after it, and exactly one row goes |
| Backend.UnreadOfBounds | backend/app.py:1464-1465 | the unread count is at most the number of notifications, zero exactly when all are read, and the total exactly when none is |
| Backend.ListNotifications | backend/app.py:1448-1465 | the loop lists the rows in the order they come and counts those not yet read |
| AiService.TwoDigitValue | PlanIt-main/frontend/services/aiService.js:354 | a two-digit text's value is ten times its first digit plus its second |
| AiService.OneDigitValue | PlanIt-main/frontend/services/aiService.js:354 | a one-digit text's value is that digit |
| AiService.ValidTimePieces | PlanIt-main/frontend/services/aiService.js:353-356 | an accepted time is an hour text of one or two digits below 24, a colon and a two-digit minute below 60 |
| AiService.ValidTimeOfPieces | PlanIt-main/frontend/services/aiService.js:353-356 | every such hour and minute, written with a colon, is accepted |
| AiService.ValidTimeIsStored | PlanIt-main/frontend/services/aiService.js:353-356 | every time the validator accepts is read by the service's time parser as the same hour and minute |
| AiService.ValidDateIsStored | PlanIt-main/frontend/services/aiService.js:345-351 | a date the validator accepts that exists in its month is read by the service's date parser as that day |
| AiService.ValidDateNotAlwaysStored | PlanIt-main/frontend/services/aiService.js:345-351 | the validator lets through "2023-02-30", a day that the service's date parser (backend/app.py:98) refuses |
| AiService.FirstIndexOf | PlanIt-main/frontend/services/aiService.js:88 | the index of the first occurrence of a character |
| AiService.LastIndexOf | PlanIt-main/frontend/services/aiService.js:88 | the index of the last occurrence of a character |
| AiService.ExtractJsonSpan | PlanIt-main/frontend/services/aiService.js:88 | the greedy match exists exactly when the first '{' comes before the last '}', and is the text from one to the other |
| AiService.BracePairWithinSpan | PlanIt-main/frontend/services/aiService.js:88 | any '{' followed by a '}' lies within the matched span |
| AiService.JsonSpanExists | PlanIt-main/frontend/services/aiService.js:88-95 | a reply has a match exactly when some '{' comes before some '}' |
| AiService.AnalyzeEmail | PlanIt-main/frontend/services/aiService.js:7-142 | no API key gives no event; the result has an event exactly when its list is non-empty; the list holds exactly the offered events with a title, a valid date and valid start and end times |
| AiService.MeetingSuggestions | PlanIt-main/frontend/services/aiService.js:144-342 | no API key gives "AI service not configured"; success exactly for a reply with a JSON span that parses with `success` and an array; then the first ten valid suggestions, else no suggestions and an error text |
| AiService.FlatMapSingletons | PlanIt-main/frontend/services/aiService.js:162-194 | one push per element gives one entry per element, in order |
| AiService.GoalConflictsAreGoals | PlanIt-main/frontend/services/aiService.js:173-184 | the goal pass pushes only timeline entries |
| AiService.ConflictsLayout | PlanIt-main/frontend/services/aiService.js:160-194 | a member's list is its activities in order, then timeline entries only, then its meetings in order |
| AiService.AsWrittenSkipsNumericIds | PlanIt-main/frontend/services/aiService.js:155-157 | as written, the lookup never finds a member whose `userid` is a number, so the key itself is used |
| AiService.AsWrittenListsIdNotName | PlanIt-main/frontend/services/aiService.js:155-157 | as written, member 5 named "alice" is listed under "5"; the corrected lookup lists "alice" |
| AiService.MemberName | PlanIt-main/frontend/services/aiService.js:156-157 | a key that matches no member is listed as itself |
| AiService.MemberNameFindsFirst | PlanIt-main/frontend/services/aiService.js:156-157 | the first member whose id, used as a key, equals the key is listed under its user name |
| AiService.ListedNames | PlanIt-main/frontend/services/aiService.js:155-157 | one name per key, in key order, under the lookup chosen (as written or intended) |
| AiService.ListedNamesStep | PlanIt-main/frontend/services/aiService.js:155-157 | the names of a longer key list extend those of its prefix by the last key's name |
| AiService.AnalysisNames | PlanIt-main/frontend/services/aiService.js:155-197 | under either lookup, the analysis lists exactly the names its keys are given |
| AiService.AsWrittenAnalysisKeys | PlanIt-main/frontend/services/aiService.js:155-197 | as written, with numeric member ids every name in the analysis is a key and every key is a name: no user name is ever used |
| AiService.AnalysisLastWins | PlanIt-main/frontend/services/aiService.js:196 | under either lookup, a name holds the conflicts of the last key listed under it |
| AiService.AppendGoalTimelines | PlanIt-main/frontend/services/aiService.js:174-183 | the loop over one goal's timelines appends exactly its timeline entries |
| AiService.AppendActivities | PlanIt-main/frontend/services/aiService.js:162-171 | the loop over activities appends one entry per activity, in order |
| AiService.AppendGoalsStep | PlanIt-main/frontend/services/aiService.js:173-184 | one more goal's entries extend the list of the goals so far |
| AiService.AppendGoals | PlanIt-main/frontend/services/aiService.js:173-184 | the loop over goals appends every goal's timeline entries in order |
| AiService.AppendMeetings | PlanIt-main/frontend/services/aiService.js:186-194 | the loop over meetings appends one entry per meeting, in order |
| AiService.BuildConflicts | PlanIt-main/frontend/services/aiService.js:160-194 | the three passes build exactly the specified conflict list |
| AiService.ScheduleAnalysis | PlanIt-main/frontend/services/aiService.js:154-197 | the key loop builds exactly the analysis map specified with the lookup as written |
| ProfileSidebar.ActivitiesInRange | PlanIt-main/frontend/components/ProfileSidebar.jsx:527-538 | an activity is sent exactly when it is one of the user's and its date, and both range ends, read as dates with the date inside the inclusive range |
| ProfileSidebar.TimelinesInRange | PlanIt-main/frontend/components/ProfileSidebar.jsx:548-557 | a timeline is kept exactly when it is one of the goal's, both its dates and both range ends read, and its span meets the range |
| ProfileSidebar.GoalsInRange | PlanIt-main/frontend/components/ProfileSidebar.jsx:545-559 | no more goals are sent than the user has |
| ProfileSidebar.GoalsInRangeMembers | PlanIt-main/frontend/components/ProfileSidebar.jsx:545-559 | every goal sent has at least one timeline, all meeting the range, and is a user's goal with its other timelines dropped; every goal with a timeline in range is sent |
| ProfileSidebar.MeetingsInRange | PlanIt-main/frontend/components/ProfileSidebar.jsx:565-580 | every meeting sent falls in the range |
| ProfileSidebar.MeetingsInRangeMembers | PlanIt-main/frontend/components/ProfileSidebar.jsx:565-580 | a meeting is sent exactly when one of the user's teams holds it and it falls in the range (both directions) |
| ProfileSidebar.MemberOf | PlanIt-main/frontend/components/ProfileSidebar.jsx:585-592 | an e-mail with no account becomes the member `unknown_<email>` named by the text before its '@' |
| ProfileSidebar.ScheduleWithinRange | PlanIt-main/frontend/components/ProfileSidebar.jsx:524-592 | one participant's schedule holds only activities and meetings in the range and goals with timelines meeting it; a participant with no account has an empty schedule |
| ProfileSidebar.Participants | PlanIt-main/frontend/components/ProfileSidebar.jsx:496-503 | the organizer comes first, followed by exactly the invited e-mails that are not blank |
| ProfileSidebar.MembersOf | PlanIt-main/frontend/components/ProfileSidebar.jsx:510-605 | one team member per participant, in order |
| ProfileSidebar.MemberKeys | PlanIt-main/frontend/components/ProfileSidebar.jsx:607-614 | one schedule key per participant, the key of its member's id |
| ProfileSidebar.ScheduleList | PlanIt-main/frontend/components/ProfileSidebar.jsx:607-614 | one schedule per participant, in order |
| ProfileSidebar.SchedulesOfKeys | PlanIt-main/frontend/components/ProfileSidebar.jsx:607-614 | the schedule map has a key exactly for each member's id, and each entry is some participant's schedule |
| ProfileSidebar.WorkingHours | PlanIt-main/frontend/components/ProfileSidebar.jsx:639-640 | the team's working hours, with 09:00 and 17:00 standing in for a missing or empty one |
| ProfileSidebar.RangeError | PlanIt-main/frontend/components/ProfileSidebar.jsx:616-628 | the range passes exactly when both ends are given and they are not reversed; each failure has its own message |
| ProfileSidebar.NoValidEmails | PlanIt-main/frontend/components/ProfileSidebar.jsx:496-500 | no e-mail survives the blank filter exactly when every invited e-mail is blank |
| ProfileSidebar.SchedulingErrors | PlanIt-main/frontend/components/ProfileSidebar.jsx:491-628 | the request is refused exactly when every invited e-mail is blank, a range end is missing or the range is reversed; the blank check comes first |
| ProfileSidebar.SchedulingShape | PlanIt-main/frontend/components/ProfileSidebar.jsx:491-644 | the order of the checks, and that a request passing them is built from the participants |
| ProfileSidebar.RequestMembers | PlanIt-main/frontend/components/ProfileSidebar.jsx:503-614 | the request has one member per participant, organizer first, and a schedule under every member's key and no other |
| ProfileSidebar.RequestWithinRange | PlanIt-main/frontend/components/ProfileSidebar.jsx:524-614 | every schedule in the request keeps only activities, goals and meetings within the range |
| ProfileSidebar.SchedulesOfStep | PlanIt-main/frontend/components/ProfileSidebar.jsx:510-605 | one more participant adds their schedule under their member's key |
| ProfileSidebar.MembersOfStep | PlanIt-main/frontend/components/ProfileSidebar.jsx:510-605 | one more participant appends their member |
| ProfileSidebar.CollectMembers | PlanIt-main/frontend/components/ProfileSidebar.jsx:510-614 | the loop over the participants builds exactly the member list and the schedule map |
| ProfileSidebar.AssembleScheduling | PlanIt-main/frontend/components/ProfileSidebar.jsx:491-644 | the whole preparation returns the request, or the first error, that the specification function gives |
| ProfileSidebar.SuggestionViewOf | PlanIt-main/frontend/components/ProfileSidebar.jsx:646-652 | suggestions are shown exactly when the service reports success; otherwise its error, or a fixed message when it gives none |
| ProfileSidebar.MeetingDraft.constructor | PlanIt-main/frontend/components/ProfileSidebar.jsx:282-307 | the draft starts with one empty invited e-mail |
| ProfileSidebar.MeetingDraft.AddInvitedEmail | PlanIt-main/frontend/components/ProfileSidebar.jsx:291-296 | an empty entry is appended and nothing else changes |
| ProfileSidebar.MeetingDraft.SetInvitedEmail | PlanIt-main/frontend/components/ProfileSidebar.jsx:282-289 | only the entry at the index takes the new value |
| ProfileSidebar.MeetingDraft.RemoveInvitedEmail | PlanIt-main/frontend/components/ProfileSidebar.jsx:298-307 | the last remaining entry is never removed; otherwise only the entry at the index goes |
| ProfileSidebar.PasswordFormStep | PlanIt-main/frontend/components/ProfileSidebar.jsx:733-760 | the change is sent exactly when the new passwords match, are at least 6 UTF-16 units long and a user id is stored; each refusal has its message: a mismatch first, then a short password, then "User not authenticated" for a missing or zero id |
| ProfileSidebar.PasswordReplyText | PlanIt-main/frontend/components/ProfileSidebar.jsx:774-791 | success is reported exactly when the service accepts; a refusal shows the service's message when it gives a non-empty one and "Failed to change password" otherwise; a failed request shows the network error text |
| ProfileSidebar.FormAllowsServiceLengths | backend/app.py:1773-1826 | every new password the service accepts passes the form's checks |
| ProfileSidebar.FormPassesWhatServiceRefuses | backend/app.py:1783-1784 | three astral characters are 6 UTF-16 units for the form but 3 characters for the service, which refuses them as too short |
| RegisterPage.EmailLikeOfPieces | PlanIt-main/frontend/views/RegisterPage.jsx:50 | any non-empty local part, domain and suffix without white space, joined by '@' and '.', pass the address test |
| RegisterPage.EmailLikeUnanchored | PlanIt-main/frontend/views/RegisterPage.jsx:50 | the test is not anchored: there can be any text around an address that passes |
| RegisterPage.EmailNeedsDot | PlanIt-main/frontend/views/RegisterPage.jsx:50 | an address with no '.' after the '@' ("a@b") fails |
| RegisterPage.RegisterErrors | PlanIt-main/frontend/views/RegisterPage.jsx:41-70 | errors are recorded only under the five field keys |
| RegisterPage.UsernameChecked | PlanIt-main/frontend/views/RegisterPage.jsx:44-46 | a username error is recorded exactly when the trimmed username is empty, with its message |
| RegisterPage.EmailChecked | PlanIt-main/frontend/views/RegisterPage.jsx:48-52 | an e-mail error is recorded exactly when the e-mail is blank or fails the address test; the blank message wins |
| RegisterPage.PasswordChecked | PlanIt-main/frontend/views/RegisterPage.jsx:54-58 | a password error is recorded exactly when it is empty or shorter than 6 UTF-16 units, with the matching message |
| RegisterPage.ConfirmationChecked | PlanIt-main/frontend/views/RegisterPage.jsx:60-62 | a confirmation error is recorded exactly when it differs from the password |
| RegisterPage.TermsChecked | PlanIt-main/frontend/views/RegisterPage.jsx:64-66 | a terms error is recorded exactly when the terms are not accepted |
| RegisterPage.ValidIffNoErrors | PlanIt-main/frontend/views/RegisterPage.jsx:41-70 | the form is valid exactly when every one of the five checks passes (both directions) |
| RegisterPage.RegisterForm.constructor | PlanIt-main/frontend/views/RegisterPage.jsx:13-24 | the form starts with four empty fields, no errors, the terms not accepted, and not loading |
| RegisterPage.RegisterForm.HandleChange | PlanIt-main/frontend/views/RegisterPage.jsx:27-39 | only the named field takes the value and only its recorded error is emptied |
| RegisterPage.RegisterForm.SetAgreedToTerms | PlanIt-main/frontend/views/RegisterPage.jsx:254 | the checkbox sets the terms flag and nothing else |
| RegisterPage.RegisterForm.ValidateForm | PlanIt-main/frontend/views/RegisterPage.jsx:41-70 | the error map is replaced by this check's, and the result says whether it is empty; the fields stay |
| RegisterPage.EnabledSubmitHasNoTermsError | PlanIt-main/frontend/views/RegisterPage.jsx:281 | once the submit button is enabled, validation adds no terms error |
| LoginPage.LoginErrors | frontend/views/LoginPage.jsx:45-58 | an e-mail error exactly when the e-mail is blank, a password error exactly when the password is empty, each with its message, and no other key |
| LoginPage.LoginValidIff | frontend/views/LoginPage.jsx:45-58 | the form is valid exactly when the e-mail is not blank and a password of any length is given |
| LoginPage.LoginForm.constructor | frontend/views/LoginPage.jsx:13-21 | the form starts with an empty e-mail and password, no errors and "remember me" off |
| LoginPage.LoginForm.HandleChange | frontend/views/LoginPage.jsx:31-43 | only the named field takes the value and only its recorded error is emptied |
| LoginPage.LoginForm.ValidateForm | frontend/views/LoginPage.jsx:45-58 | the error map is replaced by this check's, and the result says whether it is empty; the fields stay |
| Common.ClearFieldError | frontend/views/LoginPage.jsx:37-42 | the same keys stay, the named field's error becomes "" and every other error is kept |
| NotificationSidebar.StatusLabel | frontend/components/NotificationSidebar.jsx:182-204 | a label is shown exactly for an answered invitation that is not an accepted mandatory one; it reads "Accepted" exactly for the status "accepted" and "Declined" for any other |
| NotificationSidebar.ButtonsExcludeLabel | frontend/components/NotificationSidebar.jsx:174-204 | response buttons and a status label never apply to the same notification |
| NotificationSidebar.AnsweredCannotRespond | frontend/components/NotificationSidebar.jsx:174-180 | an invitation given a status other than "pending" can no longer be answered |
| NotificationSidebar.MarkRead | frontend/components/NotificationSidebar.jsx:60-62 | the list keeps its length |
| NotificationSidebar.MarkReadEffect | frontend/components/NotificationSidebar.jsx:60-62 | only the notification with the id becomes read, no other field changes, and the unread count does not grow |
| NotificationSidebar.CountUnreadDrops | frontend/components/NotificationSidebar.jsx:60-62 | a list whose entries are each at least as read as another's has no more unread entries |
| NotificationSidebar.Respond | frontend/components/NotificationSidebar.jsx:83-87 | the list keeps its length |
| NotificationSidebar.RespondEffect | frontend/components/NotificationSidebar.jsx:83-87 | every notification about the meeting takes the response and is read, nothing else in it changes, the others stay, and none of them can be answered again |
| NotificationSidebar.Delete | frontend/components/NotificationSidebar.jsx:104 | the list does not grow |
| NotificationSidebar.DeleteEffect | frontend/components/NotificationSidebar.jsx:104 | exactly the notifications with the id go, and the list shrinks by their number |
| NotificationSidebar.DeleteCount | frontend/components/NotificationSidebar.jsx:104 | the kept entries number the list's length less the entries with the id |
| NotificationSidebar.MarkAll | frontend/components/NotificationSidebar.jsx:125 | the list keeps its length |
| NotificationSidebar.MarkAllEffect | frontend/components/NotificationSidebar.jsx:125 | every notification is read afterwards and nothing else changes, so "Mark all read" is no longer offered |
| NotificationSidebar.NotificationPanel.constructor | frontend/components/NotificationSidebar.jsx:7-12 | the panel starts with no notifications and no error |
| NotificationSidebar.NotificationPanel.Loaded | frontend/components/NotificationSidebar.jsx:35-52 | a successful fetch replaces the list (an absent list is empty); a refused or thrown one keeps it and records "Failed to fetch notifications" or "Error fetching notifications" respectively |
| NotificationSidebar.NotificationPanel.MarkAsRead | frontend/components/NotificationSidebar.jsx:54-68 | the list takes the mark-read update when the request succeeds; a refused or thrown request changes nothing |
| NotificationSidebar.NotificationPanel.InvitationResponse | frontend/components/NotificationSidebar.jsx:70-96 | the list takes the response update when the request succeeds; otherwise it is unchanged and the error records "Failed to respond to invitation" for a refused request and "Error responding to invitation" for one that threw |
| NotificationSidebar.NotificationPanel.DeleteNotification | frontend/components/NotificationSidebar.jsx:98-112 | the notification is removed when the request succeeds; otherwise the list is unchanged and the error records "Failed to delete notification" for a refused request and "Error deleting notification" for one that threw |
| NotificationSidebar.NotificationPanel.MarkAllAsRead | frontend/components/NotificationSidebar.jsx:114-130 | every notification is marked read when the request succeeds; a refused or thrown request changes nothing |
| NotificationSidebar.FormatAge | frontend/components/NotificationSidebar.jsx:139-153 | under an hour "Just now", under a day the whole hours, under two days "Yesterday", otherwise (and for an unreadable date) the locale date |
| NotificationSidebar.HoursShown | frontend/components/NotificationSidebar.jsx:142-147 | the hours shown run from 1 to 23 and are the age rounded down to whole hours |
| Common.Lower | PlanIt-main/frontend/components/Header.jsx:134 | lower-casing keeps the length and maps each character on its own |
| Common.LowerChar | PlanIt-main/frontend/components/Header.jsx:134 | an ASCII capital moves to its small letter and every other character stays |
| Common.LowerAppend | PlanIt-main/frontend/components/Header.jsx:151-156 | lower-casing a concatenation lower-cases each part |
| Common.LowerIdempotent | PlanIt-main/frontend/services/gmailService.js:65 | lower-casing twice is lower-casing once |
| Common.ContainsInLeft | PlanIt-main/frontend/components/Header.jsx:151-156 | a text found in a string is found in it with anything appended |
| Common.ContainsInRight | PlanIt-main/frontend/components/Header.jsx:151-156 | a text found in a string is found in it with anything prepended |
| Common.TrimStart | PlanIt-main/frontend/views/RegisterPage.jsx:44 | the result is a suffix that does not start with white space, and everything dropped is white space |
| Common.TrimEnd | PlanIt-main/frontend/views/RegisterPage.jsx:44 | the result is a prefix that does not end with white space, and everything dropped is white space |
| Common.BlankIffTrimEmpty | PlanIt-main/frontend/views/RegisterPage.jsx:44 | a string is blank exactly when `trim()` leaves nothing |
| Common.JsLength | PlanIt-main/frontend/views/RegisterPage.jsx:56 | a string's JavaScript length lies between its number of characters and twice that |
| Common.NatToString | frontend/components/NotificationSidebar.jsx:147 | the decimal text of a number is a non-empty run of digits |
| Common.NatToStringValue | frontend/components/NotificationSidebar.jsx:147 | reading back the decimal text gives the number |
| Common.IntToString | PlanIt-main/frontend/components/CalendarGrid.jsx:158-163 | the decimal text of an integer is never empty |
| Common.DigitChar | PlanIt-main/frontend/components/CalendarGrid.jsx:179 | the digit character of a value below ten has that value |
| Common.DigitValue | PlanIt-main/frontend/components/CalendarGrid.jsx:210 | the value of a digit character is below ten and prints back as that character |
| Common.Pad2 | backend/app.py:51-65 | the two-digit form of a number below 100 is two digits that read back as the number |
| Common.BeforeFirst | PlanIt-main/frontend/components/ProfileSidebar.jsx:587 | `split(sep)[0]` is the longest prefix without the separator, followed in the input by the separator or by nothing |
| Common.AfterFirst | backend/app.py:72 | the text after the first separator exists exactly when the input holds one, and the two pieces and the separator rebuild the input |
| Common.SplitAtFirst | backend/app.py:72 | splitting a text joined at its first separator gives back both pieces |
| Common.BeforeFirstOfPrefix | PlanIt-main/frontend/components/Sidebar.jsx:330-334 | the first piece of a text is its prefix up to the first separator, whatever follows |
| Common.DigitPrefix | PlanIt-main/frontend/components/CalendarGrid.jsx:210 | the leading run of digits is a prefix followed by no digit |
| Common.DigitPrefixOfDigits | PlanIt-main/frontend/components/CalendarGrid.jsx:210 | the leading run of digits of a run of digits is all of it |
| Common.TrimOfDigits | PlanIt-main/frontend/components/CalendarGrid.jsx:210 | a run of digits has no white space to trim |
| Common.ParseInt | PlanIt-main/frontend/components/CalendarGrid.jsx:210 | `parseInt` of a run of decimal digits is its value |
| Common.NumberOf | PlanIt-main/frontend/components/Sidebar.jsx:330-334 | `Number` of a blank text is 0 and of a run of decimal digits is its value |
| Common.Filter | PlanIt-main/frontend/components/ProfileSidebar.jsx:496 | `filter` keeps exactly the elements that satisfy the test, and is no longer than the input |
| Common.CountWhere | frontend/components/NotificationSidebar.jsx:222 | no more elements pass a test than the list has |
| Common.FilterCount | PlanIt-main/frontend/components/CalendarGrid.jsx:747-760 | the length of `filter(p)` is the number of elements satisfying `p` |
| Common.Take | PlanIt-main/frontend/components/Header.jsx:194 | `slice(0, n)` is the prefix of length n, or the whole list when it is shorter |
| Common.SpliceStart | PlanIt-main/frontend/components/AddItemModal.jsx:205 | the start index of `splice` lies within the list |
| Common.FlatMapStep | PlanIt-main/frontend/components/ProfileSidebar.jsx:569-578 | one more element appends what it pushes |
| Common.FlatMapMembers | PlanIt-main/frontend/components/ProfileSidebar.jsx:569-578 | an element is pushed exactly when some input element pushes it (both directions) |
| Common.FlatMapFilter | PlanIt-main/frontend/components/ProfileSidebar.jsx:569-578 | skipping the elements that push nothing does not change the result |
| Common.FlatMapCongruent | PlanIt-main/frontend/components/ProfileSidebar.jsx:569-578 | two callbacks that agree on every element push the same |
| Sorting.LexLeTotal | PlanIt-main/frontend/components/Sidebar.jsx:436-459 | any two keys are ordered one way or the other |
| Sorting.LexLeTransitive | PlanIt-main/frontend/components/Sidebar.jsx:436-459 | the key order is transitive |
| Sorting.LexLeHead | PlanIt-main/frontend/components/Header.jsx:186-192 | a smaller first field decides the order, whatever follows |
| Sorting.Insert | PlanIt-main/frontend/components/Sidebar.jsx:436-459 | inserting adds exactly the one element |
| Sorting.SortBy | PlanIt-main/frontend/components/Sidebar.jsx:436-459 | `sort` returns a permutation of its input |
| Sorting.InsertSorted | PlanIt-main/frontend/components/Sidebar.jsx:436-459 | inserting into a sorted list keeps it sorted |
| Sorting.SortBySorted | PlanIt-main/frontend/components/Sidebar.jsx:436-459 | the sorted list is ordered by the comparator's key |
| Sorting.SortByMembers | PlanIt-main/frontend/components/Sidebar.jsx:436-459 | the sorted list holds exactly the elements of the input |
| GmailService.FirstOfType | PlanIt-main/frontend/services/gmailService.js:47-60 | no element has the type exactly when nothing is found; what is found is an element of the list with that type |
| GmailService.FirstOfTypeAppend | PlanIt-main/frontend/services/gmailService.js:47-60 | in a concatenation the first list's match wins, and the second list is searched only when the first has none |
| GmailService.FindPartIsFirstInPreorder | PlanIt-main/frontend/services/gmailService.js:47-60 | `findPart` finds the first part of the type in pre-order, at any depth, and nothing exactly when no part has it |
| GmailService.FindInPartIsFirst | PlanIt-main/frontend/services/gmailService.js:48-57 | one turn of the loop finds the first part of the type in that part's pre-order |
| GmailService.PreorderAppend | PlanIt-main/frontend/services/gmailService.js:47-60 | the pre-order of two lists of siblings is the first one's followed by the second one's |
| GmailService.PreorderSnoc | PlanIt-main/frontend/services/gmailService.js:47-60 | one more sibling appends its own pre-order |
| GmailService.SearchParts | PlanIt-main/frontend/services/gmailService.js:47-60 | the loop with its recursive search returns the first part of the type in pre-order |
| GmailService.GetHeader | PlanIt-main/frontend/services/gmailService.js:64-67 | a name that no header has, ignoring case, gives "" |
| GmailService.GetHeaderFirstMatch | PlanIt-main/frontend/services/gmailService.js:64-67 | the first header whose name matches, ignoring case, gives the value |
| GmailService.GetHeaderIgnoresCase | PlanIt-main/frontend/services/gmailService.js:64-67 | the case of the name asked for makes no difference |
| GmailService.FromBase64Url | PlanIt-main/frontend/services/gmailService.js:98 | '-' becomes '+' and '_' becomes '/', and every other character stays |
| GmailService.MapToUrl | PlanIt-main/frontend/services/gmailService.js:159-161 | '+' becomes '-' and '/' becomes '_', and every other character stays |
| GmailService.TrimPadding | PlanIt-main/frontend/services/gmailService.js:162 | exactly the trailing '=' characters are removed |
| GmailService.ToBase64Url | PlanIt-main/frontend/services/gmailService.js:159-162 | the text sent has no '+', no '/' and no trailing '=' |
| GmailService.DecodeBase64 | PlanIt-main/frontend/services/gmailService.js:97-104 | the decoded text, or the input unchanged when decoding throws |
| GmailService.MapToUrlPrefix | PlanIt-main/frontend/services/gmailService.js:159-161 | changing the alphabet of a prefix is the prefix of the changed text |
| GmailService.TrimPaddingOfMapped | PlanIt-main/frontend/services/gmailService.js:159-162 | removing the padding and changing the alphabet can be done in either order |
| GmailService.FromUrlAfterToUrl | PlanIt-main/frontend/services/gmailService.js:97-104 | reading back a sent standard base64 text gives it without its padding |
| GmailService.ToBase64UrlIsMapped | PlanIt-main/frontend/services/gmailService.js:159-162 | the text sent is the alphabet change of the unpadded text |
| GmailService.FromUrlOfMapped | PlanIt-main/frontend/services/gmailService.js:98 | the alphabet change is undone for a text with no '-' or '_' |
| GmailService.ToUrlAfterFromUrl | PlanIt-main/frontend/services/gmailService.js:159-162 | a base64url text without padding is sent back unchanged |
| GmailService.BodyOf | PlanIt-main/frontend/services/gmailService.js:69-82 | a message without parts takes its own decoded data, or "" when there is none |
| GmailService.BodyPrefersHtml | PlanIt-main/frontend/services/gmailService.js:69-79 | with parts, the first HTML part in pre-order is used when it has data; otherwise the first plain-text part with data; otherwise "" |
| GmailService.ParseBody | PlanIt-main/frontend/services/gmailService.js:69-82 | the body is the one the specification function gives, found with the searching loop |
| GmailService.ParseMessage | PlanIt-main/frontend/services/gmailService.js:62-95 | the record keeps the id, thread and snippet, takes the named headers, a non-empty subject ("(No Subject)" for a missing one), the parsed date, the body, and is unread exactly when the labels hold "UNREAD" |
| GmailService.ReplySubject | PlanIt-main/frontend/services/gmailService.js:146-148 | a reply's subject starts with "Re:", and one already starting with it is kept |
| GmailService.ForwardSubject | PlanIt-main/frontend/services/gmailService.js:191-193 | a forward's subject starts with "Fwd:", and one already starting with it is kept |
| GmailService.ReplySubjectIdempotent | PlanIt-main/frontend/services/gmailService.js:146-148 | replying to a reply adds no second prefix |
| GmailService.ForwardSubjectIdempotent | PlanIt-main/frontend/services/gmailService.js:191-193 | forwarding a forward adds no second prefix |
| GmailService.ReplySubjectIsCaseSensitive | PlanIt-main/frontend/services/gmailService.js:146-148 | the prefix check is case-sensitive: "re: plans" becomes "Re: re: plans" |
| GmailInbox.LoadErrorText | frontend/components/GmailInbox.jsx:145-150 | an error mentioning "401" asks the user to sign in again; any other shows its message, or a fixed text when it has none |
| GmailInbox.MarkOpened | frontend/components/GmailInbox.jsx:180 | the list keeps its length, the message with that id is read afterwards, the others keep their state, and nothing else in any message changes |
| GmailInbox.WithoutId | frontend/components/GmailInbox.jsx:195 | exactly the messages without that id are kept, and the list does not grow |
| GmailInbox.WithoutAbsentId | frontend/components/GmailInbox.jsx:195 | removing an id the list does not hold leaves the list as it was |
| GmailInbox.ActivityFromEvent | frontend/components/GmailInbox.jsx:265-274 | the activity always has a category and an urgency |
| GmailInbox.ActivityDescribesEmail | frontend/components/GmailInbox.jsx:265-274 | the activity keeps the event's title, date and times, takes the event's category and urgency when they are present and not empty and otherwise "work" and "medium", and its description ends with a line naming the e-mail's subject |
| GmailInbox.OkCount | frontend/components/GmailInbox.jsx:260-291 | no more requests succeed than were made |
| GmailInbox.OkCountPositive | frontend/components/GmailInbox.jsx:260-291 | the count is positive exactly when some request succeeded (both directions) |
| GmailInbox.PlannerNotice | frontend/components/GmailInbox.jsx:295-301 | the alert reports success exactly when at least one event was created |
| GmailInbox.CreateActivities | frontend/components/GmailInbox.jsx:259-291 | the loop posts one record per event, in order, and counts the requests answered OK |
| GmailInbox.Inbox.constructor | frontend/components/GmailInbox.jsx:11-23 | the inbox starts empty, with nothing selected, no page token, no query, no error and empty forms |
| GmailInbox.Inbox.LoadMessages | frontend/components/GmailInbox.jsx:117-155 | a loaded page is appended when a page token was given and replaces the list otherwise; a missing access token or a failure keeps the list and shows the error text |
| GmailInbox.Inbox.LoadMore | frontend/components/GmailInbox.jsx:168-172 | without a next page token nothing changes; otherwise the load's three outcomes pass through: a page read is appended and its token kept with the error cleared, and a missing access token or a failed read keeps the list and token and shows the load error |
| GmailInbox.Inbox.Reload | frontend/components/GmailInbox.jsx:157-166 | the selection is cleared and a refresh also clears the query; a page read replaces the list and token and clears the error, while a missing access token or a failed read keeps them and shows the load error |
| GmailInbox.Inbox.OpenMessage | frontend/components/GmailInbox.jsx:174-185 | the message is selected, and an unread one is marked read in the list once the server accepts |
| GmailInbox.Inbox.DeleteSelected | frontend/components/GmailInbox.jsx:187-206 | with a selection, a confirmation and an accepted request, the selected id leaves the list and the selection is cleared; otherwise nothing changes |
| GmailInbox.Inbox.Reply | frontend/components/GmailInbox.jsx:208-223 | a reply is sent exactly when a message is selected and the text is not blank; the text is cleared once it was sent |
| GmailInbox.Inbox.Forward | frontend/components/GmailInbox.jsx:225-246 | a forward is sent exactly when a message is selected and the address is not blank; once sent, the form, the selection and the query are cleared and the first page is loaded again, with the load's three outcomes as for a reload; otherwise the list, form, selection, query, token and error are unchanged; the reply text never changes |
| GmailInbox.Inbox.ForwardToPlanner | frontend/components/GmailInbox.jsx:248-305 | without a selection nothing is posted; without events the "no event" alert; otherwise one record per event, the number created and the matching alert |

## Left out

- Network, storage and browser calls are not modelled; each one becomes a parameter that stands for its outcome:
  - `fetch` and its answers;
  - the Gmail API (`gapi`);
  - `localStorage`;
  - `window.confirm`, `alert` and `setTimeout`;
  - the `CustomEvent` bus.
- The Gemini calls, the prompt texts and the meeting-scoring rubric are not modelled. The rubric exists only as prompt prose. The model starts from the reply text.
- `JSON.parse` is a function parameter that gives `None` where parsing throws. Regular expressions are explicit predicates.
- `atob`, `btoa` and the UTF-8 `escape`/`decodeURIComponent` steps are a decoding parameter. Only the base64url character mapping is modelled.
- The MIME text of replies and forwards is not modelled: headers, boundary and the quoted original. Neither is the search query passed to `getMessages`. Both are passed through to the Gmail API.
- JavaScript `Date` is reduced to day ordinals and instants in one fixed time zone. `toLocaleDateString` output is a parameter.
- `localeCompare` is not modelled. The search ranking keeps exact matches first and orders by a title key.
- Sorting.SortBy: stability is not stated. Only sortedness by the key and being a permutation are proved; the insertion sort does keep equal keys in input order, but no lemma says so.
- `toLowerCase` is modelled for ASCII letters only.
- Common.ParseInt: the radix is always ten. JavaScript's `parseInt` without a radix reads a "0x" or "0X" prefix as hexadecimal (`parseInt("0x1A")` is 26), while the model reads the "0" and stops (`Some(0)`). The texts it is given, a message's `internalDate` and the hour of an "HH:MM" time, hold only decimal digits.
- Common.NumberOf: only blank text and runs of decimal digits are read. Signed, fractional, exponent and hexadecimal texts such as "-5", "+5" and "1.5" give `NaN` (`None`) in the model, although `Number` reads them. The time texts the views pass hold only digits.
- Asynchronous concurrency is not modelled: `Promise.all` and the order in which awaited requests finish. Every request's outcome is given up front.
- Pixel layout in the calendar grid is not modelled: 56 px per hour, heights and widths. Positions are kept in minutes.
- React rendering, `isLoading` flags, modal visibility and DOM work are not modelled. This includes `decodeHtmlEntities` and iframe writing.
- The database is replaced by the rows its queries would return. Cascade deletes and the SQL itself are not modelled.
- Werkzeug password hashing is reduced to the boolean that the hash check gives.
- Flask sessions are not modelled.
- OAuth and the sign-in scripts are not part of this model: frontend/services/googleAuth.js, GoogleSignInButton.jsx and ProtectedRoute.jsx.
- The static pages and routing are not part of this model: AboutUs, TermsAndConditions, LearnMore, LandingPage, MainPage and App.
- The registration and login submit handlers are not modelled: the API call and mapping its answer to a message. Only the validation before the call is.
- ProfileSidebar.MemberOf: an exception after a user was found makes the source push both the found member and a placeholder. The model has only found and not-found lookups, and a lookup that throws is not-found.
- ProfileSidebar.MeetingsInRange: `new Date(null)` is the epoch, so in the source a meeting without a date falls in a range containing 1970-01-01. The model drops every meeting without a readable date.
- ProfileSidebar.SuggestionViewOf: an exception raised inside the AI call falls to the catch, which prefixes "Failed to generate meeting suggestions: ". The model has only the answered outcomes.
- GmailInbox.Inbox.ForwardToPlanner: an exception from the AI service shows "Failed to process email. Please try again." and is not modelled. The analysis is given as a value.
- GmailInbox.Inbox.DeleteSelected: the alerts after deleting are not modelled, only the list and selection.

## Findings

| source | as written | input that shows it | evidently intended | confidence | as-written member | corrected member |
|---|---|---|---|---|---|---|
| PlanIt-main/frontend/services/aiService.js:156 | `teamMembers.find(m => m.userid === userId)` compares a member's numeric `userid` with a key from `Object.keys`, which is always a string, so a member who has an account is never found and is listed under the raw id | the member `{userid: 5, username: "alice"}` with the key "5" is listed as "5" | the member whose id, read as a key, equals the key is found and listed under their user name ("alice") | not executed | AiService.AsWrittenListsIdNotName | AiService.MemberNameFindsFirst |
