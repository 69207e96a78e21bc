/** The "edit item" dialog: its conflict checkers, which leave out the entry being
    edited, its meeting validator, member removal and the meeting update payload. */
module EditItemModal {
  import opened Common
  import opened Planner
  import opened Overlaps
  import AddItemModal

  datatype Member = Member(userid: int, username: string, email: string)

  /** The meeting being edited: its form fields and its member lists. */
  datatype MeetingEdit = MeetingEdit(
    title: string,
    description: string,
    date: string,
    startTime: string,
    endTime: string,
    members: seq<Member>,
    removedMembers: seq<Member>,
    newMemberEmails: seq<string>)

  /** The body of the meeting update request. */
  datatype MeetingPayload = MeetingPayload(
    title: string,
    description: string,
    date: string,
    startTime: string,
    endTime: string,
    newMemberEmails: seq<string>,
    removedMemberIds: seq<int>,
    originalMeeting: Option<Meeting>)

  /** The edited activity `editedId` is never reported: the result is the add dialog's
      conflict list against the stored activities without it. */
  method CheckActivityOverlaps(editedId: int, activity: DayItem, activities: seq<Activity>, goals: seq<Goal>, teams: seq<Team>)
    returns (overlaps: seq<Overlap>)
    ensures overlaps == DayItemOverlaps(activity, SkipNone, Filter(activities, (a: Activity) => a.id != editedId), goals, teams)
  {
    overlaps := CheckDayItemOverlaps(activity, SkipActivity(editedId), activities, goals, teams);
    SkipActivityIsFilter(activity, editedId, activities, goals, teams);
  }

  /** Every timeline of the edited goal `editedGoalId` is left out, while activities and
      meetings are still checked: the add dialog's list against the other goals. */
  method CheckGoalTimelineOverlaps(editedGoalId: int, timeline: SpanItem, activities: seq<Activity>, goals: seq<Goal>, teams: seq<Team>)
    returns (overlaps: seq<Overlap>)
    ensures overlaps == SpanOverlaps(timeline, None, activities, Filter(goals, (g: Goal) => g.id != editedGoalId), teams)
  {
    overlaps := CheckTimelineOverlaps(timeline, Some(editedGoalId), activities, goals, teams);
    SkipGoalIsFilter(timeline, editedGoalId, activities, goals, teams);
  }

  /** The edited meeting `editedId` is never reported: the list is the one for the
      meeting's day and times against the teams with that meeting taken out. */
  method CheckMeetingOverlaps(editedId: int, meeting: DayItem, activities: seq<Activity>, goals: seq<Goal>, teams: seq<Team>)
    returns (overlaps: seq<Overlap>)
    ensures overlaps == DayItemOverlaps(meeting, SkipNone, activities, goals, WithoutMeeting(teams, editedId))
    ensures !Timed(meeting.start, meeting.end) ==> overlaps == []
  {
    overlaps := CheckDayItemOverlaps(meeting, SkipMeeting(editedId), activities, goals, teams);
    SkipMeetingIsFilter(meeting, editedId, activities, goals, teams);
  }

  /** No meeting in the stripped team list has the edited meeting's id. */
  lemma WithoutMeetingDropsIt(teams: seq<Team>, id: int)
    ensures forall tm, m | tm in WithoutMeeting(teams, id) && m in tm.meetings :: m.id != id
  {
    if teams != [] {
      WithoutMeetingDropsIt(teams[..|teams| - 1], id);
    }
  }

  /** The meeting form's check: `None` when it passes, else the message shown. */
  function ValidateMeetingForm(m: MeetingEdit): (err: Option<string>)
    ensures err.None? <==> !IsBlank(m.title) && m.date != ""
    ensures IsBlank(m.title) ==> err == Some("Meeting title is required")
    ensures !IsBlank(m.title) && m.date == "" ==> err == Some("Meeting date is required")
  {
    if IsBlank(m.title) then Some("Meeting title is required")
    else if !Truthy(m.date) then Some("Meeting date is required")
    else None
  }

  /** Drops every member with the removed member's user id and remembers the removal. */
  function RemoveMember(m: MeetingEdit, member: Member): (r: MeetingEdit)
    ensures forall x | x in r.members :: x in m.members && x.userid != member.userid
    ensures forall x | x in m.members && x.userid != member.userid :: x in r.members
    ensures r.removedMembers == m.removedMembers + [member]
    ensures r == m.(members := r.members, removedMembers := r.removedMembers)
  {
    m.(members := Filter(m.members, (x: Member) => x.userid != member.userid),
       removedMembers := m.removedMembers + [member])
  }

  function UserIds(ms: seq<Member>): (ids: seq<int>)
    ensures |ids| == |ms| && forall i | 0 <= i < |ms| :: ids[i] == ms[i].userid
  {
    if ms == [] then [] else UserIds(ms[..|ms| - 1]) + [ms[|ms| - 1].userid]
  }

  /** `meetings.find((m) => m.teammeetingid === id)`: the first meeting with that id. */
  function MeetingById(ms: seq<Meeting>, id: int): (r: Option<Meeting>)
    ensures r.None? <==> forall x | x in ms :: x.id != id
    ensures r.Some? ==>
      exists k | 0 <= k < |ms| :: ms[k] == r.value && ms[k].id == id && forall j | 0 <= j < k :: ms[j].id != id
  {
    if ms == [] then None
    else if ms[0].id == id then
      Some(ms[0])
    else
      var r := MeetingById(ms[1..], id);
      assert forall x | x in ms[1..] :: x in ms;
      assert r.Some? ==> forall j | 1 <= j < |ms| :: ms[j] == ms[1..][j - 1];
      r
  }

  /** `teams.find((t) => t.meetings.some((m) => m.teammeetingid === id))`, as an index:
      the first team holding a meeting with the id, or `|teams|` when none does. */
  function TeamWithMeeting(teams: seq<Team>, id: int): (k: nat)
    ensures k <= |teams|
    ensures forall j | 0 <= j < k :: MeetingById(teams[j].meetings, id).None?
    ensures k < |teams| ==> MeetingById(teams[k].meetings, id).Some?
  {
    if teams == [] then 0
    else if MeetingById(teams[0].meetings, id).Some? then 0
    else
      var k := TeamWithMeeting(teams[1..], id);
      assert forall j | 1 <= j < k + 1 :: teams[j] == teams[1..][j - 1];
      k + 1
  }

  /** The stored copy of the meeting being edited: looked up in the first team whose
      meetings include that id; `undefined` when no team has it. */
  function OriginalMeeting(teams: seq<Team>, id: int): (r: Option<Meeting>)
    ensures r.None? <==> forall tm, x | tm in teams && x in tm.meetings :: x.id != id
    ensures r.Some? ==>
      exists k | 0 <= k < |teams| ::
        r == MeetingById(teams[k].meetings, id) && forall j | 0 <= j < k :: MeetingById(teams[j].meetings, id).None?
  {
    var k := TeamWithMeeting(teams, id);
    if k < |teams| then
      MeetingById(teams[k].meetings, id)
    else
      assert forall tm | tm in teams :: MeetingById(tm.meetings, id).None?;
      None
  }

  /** The update request for meeting `editedId`: the form fields, the non-blank new
      invitee emails in order, the ids of the removed members in removal order, and the
      stored copy of the meeting found among `teams`. */
  function BuildMeetingPayload(m: MeetingEdit, editedId: int, teams: seq<Team>): (p: MeetingPayload)
    ensures p.title == m.title && p.date == m.date && p.description == m.description
    ensures p.startTime == m.startTime && p.endTime == m.endTime
    ensures forall e | e in p.newMemberEmails :: e in m.newMemberEmails && !IsBlank(e)
    ensures forall e | e in m.newMemberEmails && !IsBlank(e) :: e in p.newMemberEmails
    ensures p.newMemberEmails == Filter(m.newMemberEmails, (e: string) => !IsBlank(e))
    ensures |p.removedMemberIds| == |m.removedMembers|
    ensures forall i | 0 <= i < |m.removedMembers| :: p.removedMemberIds[i] == m.removedMembers[i].userid
    ensures p.originalMeeting.None? <==> forall tm, x | tm in teams && x in tm.meetings :: x.id != editedId
    ensures p.originalMeeting.Some? ==>
      p.originalMeeting.value.id == editedId && exists tm | tm in teams :: p.originalMeeting.value in tm.meetings
  {
    var original := OriginalMeeting(teams, editedId);
    MeetingPayload(m.title, m.description, m.date, m.startTime, m.endTime,
      Filter(m.newMemberEmails, (e: string) => !IsBlank(e)), UserIds(m.removedMembers), original)
  }

  /** The list state of the dialog that the remove buttons change. */
  class EditDialog {
    var timelines: seq<AddItemModal.TimelineForm>
    var meeting: MeetingEdit

    constructor (m: MeetingEdit, ts: seq<AddItemModal.TimelineForm>)
      ensures meeting == m && timelines == ts
    {
      meeting := m;
      timelines := ts;
    }

    method RemoveTimeline(index: int)
      modifies this
      ensures timelines == RemoveUnlessLast(old(timelines), index)
      ensures meeting == old(meeting)
      ensures |old(timelines)| >= 1 ==> |timelines| >= 1
    {
      if |timelines| > 1 {
        var updated := SpliceOne(timelines, index);
        timelines := updated;
      }
    }

    method RemoveNewMemberEmail(index: int)
      modifies this
      ensures meeting == old(meeting).(newMemberEmails := RemoveUnlessLast(old(meeting.newMemberEmails), index))
      ensures timelines == old(timelines)
      ensures |old(meeting.newMemberEmails)| >= 1 ==> |meeting.newMemberEmails| >= 1
    {
      if |meeting.newMemberEmails| > 1 {
        var updated := SpliceOne(meeting.newMemberEmails, index);
        meeting := meeting.(newMemberEmails := updated);
      }
    }

    method RemoveMemberClicked(member: Member)
      modifies this
      ensures meeting == RemoveMember(old(meeting), member)
      ensures timelines == old(timelines)
    {
      meeting := RemoveMember(meeting, member);
    }
  }
}
