/** The "add item" dialog: its form validators and the remove buttons of its
    timeline, meeting and invited-email lists. */
module AddItemModal {
  import opened Common

  datatype ActivityForm = ActivityForm(title: string, date: string)

  datatype TimelineForm = TimelineForm(
    title: string,
    startDate: string,
    endDate: string,
    startTime: string,
    endTime: string)

  datatype GoalForm = GoalForm(title: string)

  datatype MeetingForm = MeetingForm(title: string, date: string, invitedEmails: seq<string>)

  datatype TeamForm = TeamForm(name: string)

  /** A timeline the goal form accepts: a non-blank title and both dates filled in. */
  predicate TimelineComplete(t: TimelineForm) {
    !IsBlank(t.title) && Truthy(t.startDate) && Truthy(t.endDate)
  }

  /** A meeting the team form accepts: a non-blank title, a date and a non-blank invitee. */
  predicate MeetingComplete(m: MeetingForm) {
    !IsBlank(m.title) && Truthy(m.date) && exists j | 0 <= j < |m.invitedEmails| :: !IsBlank(m.invitedEmails[j])
  }

  /** The activity form's check: `None` when it passes, else the message shown. */
  function ValidateActivityForm(f: ActivityForm): (err: Option<string>)
    ensures err.None? <==> !IsBlank(f.title) && f.date != ""
    ensures IsBlank(f.title) ==> err == Some("Activity title is required")
    ensures !IsBlank(f.title) && f.date == "" ==> err == Some("Activity date is required")
  {
    if IsBlank(f.title) then Some("Activity title is required")
    else if !Truthy(f.date) then Some("Activity date is required")
    else None
  }

  /** The goal form's check: a non-blank title and at least one complete timeline. */
  function ValidateGoalForm(g: GoalForm, timelines: seq<TimelineForm>): (err: Option<string>)
    ensures err.None? <==> !IsBlank(g.title) && exists i | 0 <= i < |timelines| :: TimelineComplete(timelines[i])
    ensures IsBlank(g.title) ==> err == Some("Goal title is required")
    ensures err.Some? && !IsBlank(g.title) ==>
      err == Some("At least one timeline with title, start date, and end date is required")
  {
    if IsBlank(g.title) then Some("Goal title is required")
    else if !(exists i | 0 <= i < |timelines| :: TimelineComplete(timelines[i])) then
      Some("At least one timeline with title, start date, and end date is required")
    else None
  }

  /** The team form's check: a non-blank team name and at least one complete meeting. */
  function ValidateTeamForm(t: TeamForm, meetings: seq<MeetingForm>): (err: Option<string>)
    ensures err.None? <==> !IsBlank(t.name) && exists i | 0 <= i < |meetings| :: MeetingComplete(meetings[i])
    ensures IsBlank(t.name) ==> err == Some("Team name is required")
    ensures err.Some? && !IsBlank(t.name) ==>
      err == Some("At least one meeting with title, date, and invited emails is required")
  {
    if IsBlank(t.name) then Some("Team name is required")
    else if !(exists i | 0 <= i < |meetings| :: MeetingComplete(meetings[i])) then
      Some("At least one meeting with title, date, and invited emails is required")
    else None
  }

  /** The list state of the dialog that the remove buttons change. */
  class AddDialog {
    var timelines: seq<TimelineForm>
    var meetings: seq<MeetingForm>

    /** A fresh dialog with one empty timeline and one empty meeting with one empty invitee. */
    constructor ()
      ensures timelines == [TimelineForm("", "", "", "", "")]
      ensures meetings == [MeetingForm("", "", [""])]
    {
      timelines := [TimelineForm("", "", "", "", "")];
      meetings := [MeetingForm("", "", [""])];
    }

    method RemoveTimeline(index: int)
      modifies this
      ensures timelines == RemoveUnlessLast(old(timelines), index)
      ensures meetings == old(meetings)
      ensures |old(timelines)| >= 1 ==> |timelines| >= 1
    {
      if |timelines| > 1 {
        var updated := SpliceOne(timelines, index);
        timelines := updated;
      }
    }

    method RemoveMeeting(index: int)
      modifies this
      ensures meetings == RemoveUnlessLast(old(meetings), index)
      ensures timelines == old(timelines)
      ensures |old(meetings)| >= 1 ==> |meetings| >= 1
    {
      if |meetings| > 1 {
        var updated := SpliceOne(meetings, index);
        meetings := updated;
      }
    }

    /** Removes one invitee of one meeting; a meeting keeps at least one invitee field.
        Every other meeting, and every other field of this one, is unchanged. */
    method RemoveInvitedEmail(meetingIndex: nat, emailIndex: int)
      requires meetingIndex < |meetings|
      modifies this
      ensures |meetings| == |old(meetings)| && timelines == old(timelines)
      ensures meetings[meetingIndex] == old(meetings[meetingIndex]).(
        invitedEmails := RemoveUnlessLast(old(meetings[meetingIndex].invitedEmails), emailIndex))
      ensures forall k | 0 <= k < |meetings| && k != meetingIndex :: meetings[k] == old(meetings[k])
    {
      var m := meetings[meetingIndex];
      if |m.invitedEmails| > 1 {
        meetings := meetings[meetingIndex := m.(invitedEmails := SpliceOne(m.invitedEmails, emailIndex))];
      }
    }
  }
}
