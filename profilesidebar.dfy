/** The profile sidebar's meeting planner and password form: the participants and
    schedules it assembles for an AI scheduling request (the same steps run in the
    add-item dialog's team form), its invited-email list, and the checks made before a
    password change is sent. Every server lookup for one e-mail is a parameter. */
module ProfileSidebar {
  import opened Common
  import opened AiService
  import Backend

  // ---------------------------------------------------------------------------
  // Date-range filters

  /** A date that reads as a day within the inclusive range; a missing or unreadable
      date, or an unreadable range end, keeps nothing. */
  predicate InRange(d: DateText, lo: DateText, hi: DateText) {
    d.IsoDate? && lo.IsoDate? && hi.IsoDate? && lo.day <= d.day <= hi.day
  }

  /** A timeline whose two dates read and whose span meets the range. */
  predicate TimelineInRange(t: TimelineInfo, lo: DateText, hi: DateText) {
    t.startDate.IsoDate? && t.endDate.IsoDate? && lo.IsoDate? && hi.IsoDate?
    && t.startDate.day <= hi.day && t.endDate.day >= lo.day
  }

  function ActivitiesInRange(acts: seq<ActivityInfo>, lo: DateText, hi: DateText): (r: seq<ActivityInfo>)
    ensures forall a :: a in r <==> a in acts && InRange(a.date, lo, hi)
  {
    Filter(acts, (a: ActivityInfo) => InRange(a.date, lo, hi))
  }

  function TimelinesInRange(ts: seq<TimelineInfo>, lo: DateText, hi: DateText): (r: seq<TimelineInfo>)
    ensures forall t :: t in r <==> t in ts && TimelineInRange(t, lo, hi)
  {
    Filter(ts, (t: TimelineInfo) => TimelineInRange(t, lo, hi))
  }

  /** `goals.map(g => ({...g, timelines: <those in range>})).filter(g => g.timelines.length > 0)`. */
  function GoalsInRange(goals: seq<GoalInfo>, lo: DateText, hi: DateText): (r: seq<GoalInfo>)
    ensures |r| <= |goals|
  {
    if goals == [] then []
    else
      var g := goals[|goals| - 1];
      var kept := TimelinesInRange(g.timelines, lo, hi);
      GoalsInRange(goals[..|goals| - 1], lo, hi) + (if kept == [] then [] else [g.(timelines := kept)])
  }

  /** Every goal kept has at least one timeline, all of them in range, and is a goal
      of the input with its other timelines dropped; every goal with a timeline in
      range is kept. */
  lemma {:induction false} GoalsInRangeMembers(goals: seq<GoalInfo>, lo: DateText, hi: DateText)
    ensures forall g | g in GoalsInRange(goals, lo, hi) ::
      |g.timelines| > 0 && (forall t | t in g.timelines :: TimelineInRange(t, lo, hi))
    ensures forall g | g in GoalsInRange(goals, lo, hi) ::
      exists h | h in goals :: g == h.(timelines := TimelinesInRange(h.timelines, lo, hi))
    ensures forall h | h in goals && (exists t | t in h.timelines :: TimelineInRange(t, lo, hi)) ::
      h.(timelines := TimelinesInRange(h.timelines, lo, hi)) in GoalsInRange(goals, lo, hi)
  {
    if goals != [] {
      var init := goals[..|goals| - 1];
      var last := goals[|goals| - 1];
      GoalsInRangeMembers(init, lo, hi);
      assert goals == init + [last];
      forall h | h in goals && (exists t | t in h.timelines :: TimelineInRange(t, lo, hi))
        ensures h.(timelines := TimelinesInRange(h.timelines, lo, hi)) in GoalsInRange(goals, lo, hi)
      {
        var t :| t in h.timelines && TimelineInRange(t, lo, hi);
        assert t in TimelinesInRange(h.timelines, lo, hi);
      }
    }
  }

  /** The meetings of every team, in order, that fall in the range. */
  function MeetingsInRange(teams: seq<seq<MeetingInfo>>, lo: DateText, hi: DateText): (r: seq<MeetingInfo>)
    ensures forall m | m in r :: InRange(m.date, lo, hi)
  {
    if teams == [] then []
    else
      var kept := Filter(teams[|teams| - 1], (m: MeetingInfo) => InRange(m.date, lo, hi));
      MeetingsInRange(teams[..|teams| - 1], lo, hi) + kept
  }

  /** A meeting is sent exactly when some team holds it and it falls in the range. */
  lemma {:induction false} MeetingsInRangeMembers(teams: seq<seq<MeetingInfo>>, lo: DateText, hi: DateText, m: MeetingInfo)
    ensures m in MeetingsInRange(teams, lo, hi) <==>
      InRange(m.date, lo, hi) && exists k | 0 <= k < |teams| :: m in teams[k]
  {
    if teams != [] {
      var init := teams[..|teams| - 1];
      MeetingsInRangeMembers(init, lo, hi, m);
      if exists k | 0 <= k < |init| :: m in init[k] {
        var k :| 0 <= k < |init| && m in init[k];
        assert teams[k] == init[k];
      }
      if exists k | 0 <= k < |teams| :: m in teams[k] {
        var k :| 0 <= k < |teams| && m in teams[k];
        if k < |init| {
          assert init[k] == teams[k];
        }
      }
    }
  }

  // ---------------------------------------------------------------------------
  // Participants

  /** What the service returns for one e-mail: the user with each of its lists, a list
      being None when its request was refused; or nothing (not found, or the request
      failed). */
  datatype FoundUser = FoundUser(userid: int, username: Option<string>, email: string,
    activities: Option<seq<ActivityInfo>>, goals: Option<seq<GoalInfo>>, teams: Option<seq<seq<MeetingInfo>>>)

  datatype UserLookup = Found(user: FoundUser) | NotFound

  function PlaceholderId(email: string): string {
    "unknown_" + email
  }

  function MemberOf(email: string, lookup: string -> UserLookup): (m: TeamMember)
    ensures lookup(email).NotFound? ==>
      m == TeamMember(TextId(PlaceholderId(email)), Some(BeforeFirst(email, '@')), email)
  {
    match lookup(email)
    case Found(u) => TeamMember(NumId(u.userid), u.username, u.email)
    case NotFound => TeamMember(TextId(PlaceholderId(email)), Some(BeforeFirst(email, '@')), email)
  }

  function OrEmpty<T>(s: Option<seq<T>>): seq<T> {
    if s.Some? then s.value else []
  }

  /** The schedule stored for one e-mail. */
  function ScheduleOf(email: string, lookup: string -> UserLookup, lo: DateText, hi: DateText): Schedule {
    match lookup(email)
    case Found(u) => Schedule(ActivitiesInRange(OrEmpty(u.activities), lo, hi),
                              GoalsInRange(OrEmpty(u.goals), lo, hi),
                              MeetingsInRange(OrEmpty(u.teams), lo, hi))
    case NotFound => Schedule([], [], [])
  }

  /** Every activity and meeting of a schedule falls in the range, and every goal has a
      timeline, all of which meet the range; a placeholder has an empty schedule. */
  lemma ScheduleWithinRange(email: string, lookup: string -> UserLookup, lo: DateText, hi: DateText)
    ensures forall a | a in ScheduleOf(email, lookup, lo, hi).activities :: InRange(a.date, lo, hi)
    ensures forall m | m in ScheduleOf(email, lookup, lo, hi).meetings :: InRange(m.date, lo, hi)
    ensures forall g | g in ScheduleOf(email, lookup, lo, hi).goals ::
      |g.timelines| > 0 && forall t | t in g.timelines :: TimelineInRange(t, lo, hi)
    ensures lookup(email).NotFound? ==> ScheduleOf(email, lookup, lo, hi) == Schedule([], [], [])
  {
    if lookup(email).Found? {
      GoalsInRangeMembers(OrEmpty(lookup(email).user.goals), lo, hi);
    }
  }

  predicate NonBlank(s: string) {
    !IsBlank(s)
  }

  /** The organizer's e-mail followed by the non-blank invited e-mails, in order. */
  function Participants(organizer: string, invited: seq<string>): (r: seq<string>)
    ensures |r| >= 1 && r[0] == organizer
    ensures forall e :: e in r[1..] <==> e in invited && NonBlank(e)
  {
    [organizer] + Filter(invited, NonBlank)
  }

  function MembersOf(emails: seq<string>, lookup: string -> UserLookup): (r: seq<TeamMember>)
    ensures |r| == |emails|
    ensures forall i | 0 <= i < |emails| :: r[i] == MemberOf(emails[i], lookup)
  {
    seq(|emails|, i requires 0 <= i < |emails| => MemberOf(emails[i], lookup))
  }

  /** The schedules under each member's key; a later e-mail with the same key
      overwrites an earlier one. */
  function SchedulesOf(emails: seq<string>, lookup: string -> UserLookup, lo: DateText, hi: DateText): map<string, Schedule> {
    if emails == [] then map[]
    else
      var e := emails[|emails| - 1];
      SchedulesOf(emails[..|emails| - 1], lookup, lo, hi)[KeyOf(MemberOf(e, lookup).userid) := ScheduleOf(e, lookup, lo, hi)]
  }

  /** Each participant's key, in order. */
  function MemberKeys(emails: seq<string>, lookup: string -> UserLookup): (r: seq<string>)
    ensures |r| == |emails|
    ensures forall i | 0 <= i < |emails| :: r[i] == KeyOf(MemberOf(emails[i], lookup).userid)
  {
    seq(|emails|, i requires 0 <= i < |emails| => KeyOf(MemberOf(emails[i], lookup).userid))
  }

  /** Each participant's schedule, in order. */
  function ScheduleList(emails: seq<string>, lookup: string -> UserLookup, lo: DateText, hi: DateText): (r: seq<Schedule>)
    ensures |r| == |emails|
    ensures forall i | 0 <= i < |emails| :: r[i] == ScheduleOf(emails[i], lookup, lo, hi)
  {
    seq(|emails|, i requires 0 <= i < |emails| => ScheduleOf(emails[i], lookup, lo, hi))
  }

  /** The keys are the members' keys, and each holds the schedule of some e-mail. */
  lemma {:induction false} SchedulesOfKeys(emails: seq<string>, lookup: string -> UserLookup, lo: DateText, hi: DateText)
    ensures forall k :: k in SchedulesOf(emails, lookup, lo, hi) <==> k in MemberKeys(emails, lookup)
    ensures forall k | k in SchedulesOf(emails, lookup, lo, hi) ::
      SchedulesOf(emails, lookup, lo, hi)[k] in ScheduleList(emails, lookup, lo, hi)
  {
    if emails != [] {
      var init := emails[..|emails| - 1];
      var e := emails[|emails| - 1];
      SchedulesOfKeys(init, lookup, lo, hi);
      var key := KeyOf(MemberOf(e, lookup).userid);
      var sched := ScheduleOf(e, lookup, lo, hi);
      var before := SchedulesOf(init, lookup, lo, hi);
      var m := SchedulesOf(emails, lookup, lo, hi);
      assert m == before[key := sched];
      var keys := MemberKeys(emails, lookup);
      var keys0 := MemberKeys(init, lookup);
      assert keys == keys0 + [key];
      var list := ScheduleList(emails, lookup, lo, hi);
      var list0 := ScheduleList(init, lookup, lo, hi);
      assert list == list0 + [sched];
      forall k ensures k in m <==> k in keys {
        if k == key {
          assert keys[|keys| - 1] == k;
        } else {
          assert k in m <==> k in before;
          assert k in keys <==> k in keys0;
        }
      }
      forall k | k in m ensures m[k] in list {
        if k == key {
          assert m[k] == list[|list| - 1];
        } else {
          assert m[k] == before[k] && before[k] in list0;
        }
      }
    }
  }

  // ---------------------------------------------------------------------------
  // The scheduling request

  datatype SchedulingRequest =
    | SchedulingError(message: string)
    | Request(members: seq<TeamMember>, schedules: map<string, Schedule>, workingStart: string, workingEnd: string)

  /** `teamDetails.teamstartworkinghour || "09:00"` and the same for the end. */
  function WorkingHours(start: Option<string>, end: Option<string>): (r: (string, string))
    ensures r.0 == (if Present(start) then start.value else "09:00")
    ensures r.1 == (if Present(end) then end.value else "17:00")
  {
    (if Present(start) then start.value else "09:00", if Present(end) then end.value else "17:00")
  }

  /** The request sent for these participants. */
  function RequestOf(emails: seq<string>, lookup: string -> UserLookup, lo: DateText, hi: DateText,
                     startHour: Option<string>, endHour: Option<string>): SchedulingRequest
  {
    var hours := WorkingHours(startHour, endHour);
    Request(MembersOf(emails, lookup), SchedulesOf(emails, lookup, lo, hi), hours.0, hours.1)
  }

  /** The checks of the meeting range, made once every participant has been looked up. */
  function RangeError(lo: DateText, hi: DateText): (err: Option<string>)
    ensures err.None? <==> !lo.NoDate? && !hi.NoDate? && !(lo.IsoDate? && hi.IsoDate? && lo.day > hi.day)
    ensures lo.NoDate? || hi.NoDate? ==> err == Some("Please specify both start and end dates for the meeting range")
    ensures !lo.NoDate? && !hi.NoDate? && lo.IsoDate? && hi.IsoDate? && lo.day > hi.day ==>
      err == Some("End date must be after start date")
  {
    if lo.NoDate? || hi.NoDate? then Some("Please specify both start and end dates for the meeting range")
    else if lo.IsoDate? && hi.IsoDate? && lo.day > hi.day then Some("End date must be after start date")
    else None
  }

  /** `handleAIScheduling` up to the AI call. */
  function SchedulingOf(organizer: string, invited: seq<string>, lookup: string -> UserLookup,
                        lo: DateText, hi: DateText, startHour: Option<string>, endHour: Option<string>): SchedulingRequest
  {
    if Filter(invited, NonBlank) == [] then SchedulingError("Please add at least one team member email")
    else if RangeError(lo, hi).Some? then SchedulingError(RangeError(lo, hi).value)
    else RequestOf(Participants(organizer, invited), lookup, lo, hi, startHour, endHour)
  }

  lemma NoValidEmails(invited: seq<string>)
    ensures Filter(invited, NonBlank) == [] <==> forall e | e in invited :: IsBlank(e)
  {
    var valid := Filter(invited, NonBlank);
    if valid != [] {
      assert valid[0] in valid;
    }
  }

  /** The request is refused exactly when no invited e-mail is non-blank, a range end
      is missing, or the range is reversed; the first of these decides the message. */
  lemma SchedulingErrors(organizer: string, invited: seq<string>, lookup: string -> UserLookup,
                         lo: DateText, hi: DateText, startHour: Option<string>, endHour: Option<string>)
    ensures SchedulingOf(organizer, invited, lookup, lo, hi, startHour, endHour).SchedulingError? <==>
      ((forall e | e in invited :: IsBlank(e)) || lo.NoDate? || hi.NoDate? || (lo.IsoDate? && hi.IsoDate? && lo.day > hi.day))
    ensures (forall e | e in invited :: IsBlank(e)) ==>
      SchedulingOf(organizer, invited, lookup, lo, hi, startHour, endHour) == SchedulingError("Please add at least one team member email")
    ensures (exists e | e in invited :: NonBlank(e)) && (lo.NoDate? || hi.NoDate?) ==>
      SchedulingOf(organizer, invited, lookup, lo, hi, startHour, endHour)
        == SchedulingError("Please specify both start and end dates for the meeting range")
  {
    NoValidEmails(invited);
    SchedulingShape(organizer, invited, lookup, lo, hi, startHour, endHour);
  }

  lemma SchedulingShape(organizer: string, invited: seq<string>, lookup: string -> UserLookup,
                        lo: DateText, hi: DateText, startHour: Option<string>, endHour: Option<string>)
    ensures SchedulingOf(organizer, invited, lookup, lo, hi, startHour, endHour).SchedulingError? <==>
      (Filter(invited, NonBlank) == [] || RangeError(lo, hi).Some?)
    ensures Filter(invited, NonBlank) == [] ==>
      SchedulingOf(organizer, invited, lookup, lo, hi, startHour, endHour) == SchedulingError("Please add at least one team member email")
    ensures Filter(invited, NonBlank) != [] && RangeError(lo, hi).Some? ==>
      SchedulingOf(organizer, invited, lookup, lo, hi, startHour, endHour) == SchedulingError(RangeError(lo, hi).value)
    ensures Filter(invited, NonBlank) != [] && RangeError(lo, hi).None? ==>
      SchedulingOf(organizer, invited, lookup, lo, hi, startHour, endHour)
        == RequestOf(Participants(organizer, invited), lookup, lo, hi, startHour, endHour)
  {
  }

  /** A request has one member per participant, the organizer first, and a schedule
      under every member's key and under no other key. */
  lemma {:induction false} RequestMembers(emails: seq<string>, lookup: string -> UserLookup, lo: DateText, hi: DateText,
                                          startHour: Option<string>, endHour: Option<string>)
    ensures |RequestOf(emails, lookup, lo, hi, startHour, endHour).members| == |emails|
    ensures forall i | 0 <= i < |emails| :: RequestOf(emails, lookup, lo, hi, startHour, endHour).members[i] == MemberOf(emails[i], lookup)
    ensures forall i | 0 <= i < |emails| ::
      KeyOf(MemberOf(emails[i], lookup).userid) in RequestOf(emails, lookup, lo, hi, startHour, endHour).schedules
    ensures forall k | k in RequestOf(emails, lookup, lo, hi, startHour, endHour).schedules ::
      exists i | 0 <= i < |emails| :: KeyOf(MemberOf(emails[i], lookup).userid) == k
  {
    SchedulesOfKeys(emails, lookup, lo, hi);
    var keys := MemberKeys(emails, lookup);
    forall i | 0 <= i < |emails|
      ensures KeyOf(MemberOf(emails[i], lookup).userid) in RequestOf(emails, lookup, lo, hi, startHour, endHour).schedules
    {
      assert keys[i] in keys;
    }
    forall k | k in RequestOf(emails, lookup, lo, hi, startHour, endHour).schedules
      ensures exists i | 0 <= i < |emails| :: KeyOf(MemberOf(emails[i], lookup).userid) == k
    {
      var i :| 0 <= i < |keys| && keys[i] == k;
    }
  }

  /** Every schedule of a request keeps only activities and meetings in the range,
      and goals with at least one timeline, each meeting the range. */
  lemma {:induction false} RequestWithinRange(emails: seq<string>, lookup: string -> UserLookup, lo: DateText, hi: DateText,
                                              startHour: Option<string>, endHour: Option<string>, k: string)
    requires k in RequestOf(emails, lookup, lo, hi, startHour, endHour).schedules
    ensures forall a | a in RequestOf(emails, lookup, lo, hi, startHour, endHour).schedules[k].activities :: InRange(a.date, lo, hi)
    ensures forall m | m in RequestOf(emails, lookup, lo, hi, startHour, endHour).schedules[k].meetings :: InRange(m.date, lo, hi)
    ensures forall g | g in RequestOf(emails, lookup, lo, hi, startHour, endHour).schedules[k].goals ::
      |g.timelines| > 0 && forall t | t in g.timelines :: TimelineInRange(t, lo, hi)
  {
    SchedulesOfKeys(emails, lookup, lo, hi);
    var list := ScheduleList(emails, lookup, lo, hi);
    var i :| 0 <= i < |list| && list[i] == SchedulesOf(emails, lookup, lo, hi)[k];
    ScheduleWithinRange(emails[i], lookup, lo, hi);
  }

  lemma SchedulesOfStep(emails: seq<string>, i: nat, lookup: string -> UserLookup, lo: DateText, hi: DateText)
    requires i < |emails|
    ensures SchedulesOf(emails[..i + 1], lookup, lo, hi)
      == SchedulesOf(emails[..i], lookup, lo, hi)[KeyOf(MemberOf(emails[i], lookup).userid) := ScheduleOf(emails[i], lookup, lo, hi)]
  {
    assert emails[..i + 1][..i] == emails[..i];
  }

  lemma MembersOfStep(emails: seq<string>, i: nat, lookup: string -> UserLookup)
    requires i < |emails|
    ensures MembersOf(emails[..i + 1], lookup) == MembersOf(emails[..i], lookup) + [MemberOf(emails[i], lookup)]
  {
    var a := MembersOf(emails[..i + 1], lookup);
    var b := MembersOf(emails[..i], lookup) + [MemberOf(emails[i], lookup)];
    assert forall k | 0 <= k < i + 1 :: a[k] == b[k];
  }

  /** The loop over the participants. */
  method CollectMembers(emails: seq<string>, lookup: string -> UserLookup, lo: DateText, hi: DateText)
    returns (members: seq<TeamMember>, schedules: map<string, Schedule>)
    ensures members == MembersOf(emails, lookup)
    ensures schedules == SchedulesOf(emails, lookup, lo, hi)
  {
    members := [];
    schedules := map[];
    var i := 0;
    while i < |emails|
      invariant 0 <= i <= |emails|
      invariant members == MembersOf(emails[..i], lookup)
      invariant schedules == SchedulesOf(emails[..i], lookup, lo, hi)
    {
      SchedulesOfStep(emails, i, lookup, lo, hi);
      MembersOfStep(emails, i, lookup);
      var member := MemberOf(emails[i], lookup);
      members := members + [member];
      schedules := schedules[KeyOf(member.userid) := ScheduleOf(emails[i], lookup, lo, hi)];
      i := i + 1;
    }
    assert emails[..i] == emails;
  }

  method AssembleScheduling(organizer: string, invited: seq<string>, lookup: string -> UserLookup,
                            lo: DateText, hi: DateText, startHour: Option<string>, endHour: Option<string>)
    returns (request: SchedulingRequest)
    ensures request == SchedulingOf(organizer, invited, lookup, lo, hi, startHour, endHour)
  {
    SchedulingShape(organizer, invited, lookup, lo, hi, startHour, endHour);
    if Filter(invited, NonBlank) == [] {
      return SchedulingError("Please add at least one team member email");
    }
    var emails := Participants(organizer, invited);
    var members, schedules := CollectMembers(emails, lookup, lo, hi);
    var rangeError := RangeError(lo, hi);
    if rangeError.Some? {
      return SchedulingError(rangeError.value);
    }
    var hours := WorkingHours(startHour, endHour);
    request := Request(members, schedules, hours.0, hours.1);
    assert request == RequestOf(emails, lookup, lo, hi, startHour, endHour);
  }

  /** What the planner shows once the AI service answers. */
  datatype SuggestionView = ShowSuggestions(suggestions: seq<SuggestionCandidate>) | ShowError(message: string)

  function SuggestionViewOf(result: SuggestionResult): (v: SuggestionView)
    ensures v.ShowSuggestions? <==> result.success
    ensures v.ShowSuggestions? ==> v.suggestions == result.suggestions
    ensures v.ShowError? ==> (v.message ==
      if result.error.Some? && result.error.value != "" then result.error.value else "Failed to generate meeting suggestions")
  {
    if result.success then ShowSuggestions(result.suggestions)
    else ShowError(if result.error.Some? && result.error.value != "" then result.error.value else "Failed to generate meeting suggestions")
  }

  // ---------------------------------------------------------------------------
  // The meeting draft's invited e-mails

  class MeetingDraft {
    var invitedEmails: seq<string>

    constructor()
      ensures invitedEmails == [""]
    {
      invitedEmails := [""];
    }

    /** `addInvitedEmail`: an empty entry at the end. */
    method AddInvitedEmail()
      modifies this
      ensures invitedEmails == old(invitedEmails) + [""]
    {
      invitedEmails := invitedEmails + [""];
    }

    /** `handleInvitedEmailChange`. */
    method SetInvitedEmail(index: nat, value: string)
      requires index < |invitedEmails|
      modifies this
      ensures invitedEmails == old(invitedEmails)[index := value]
    {
      invitedEmails := invitedEmails[index := value];
    }

    /** `removeInvitedEmail`: a list of one entry is kept; otherwise the entry at the
        index goes. */
    method RemoveInvitedEmail(index: int)
      modifies this
      ensures invitedEmails == RemoveUnlessLast(old(invitedEmails), index)
      ensures |old(invitedEmails)| >= 1 ==> |invitedEmails| >= 1
      ensures |old(invitedEmails)| > 1 && 0 <= index < |old(invitedEmails)| ==>
        invitedEmails == old(invitedEmails)[..index] + old(invitedEmails)[index + 1..]
    {
      if |invitedEmails| > 1 {
        var updated := SpliceOne(invitedEmails, index);
        invitedEmails := updated;
      }
    }
  }

  // ---------------------------------------------------------------------------
  // Password form

  datatype PasswordForm = PasswordForm(currentPassword: string, newPassword: string, confirmPassword: string)

  datatype PasswordStep = PasswordRejected(message: string) | SendPasswordChange(userId: int, currentPassword: string, newPassword: string)

  /** The checks of `handleChangePassword` before the request; `storedId` is the id in
      the stored user, None when absent. */
  function PasswordFormStep(form: PasswordForm, storedId: Option<int>): (r: PasswordStep)
    ensures r.SendPasswordChange? <==>
      (form.newPassword == form.confirmPassword && JsLength(form.newPassword) >= 6 && storedId.Some? && storedId.value != 0)
    ensures form.newPassword != form.confirmPassword ==> r == PasswordRejected("New passwords don't match")
    ensures form.newPassword == form.confirmPassword && JsLength(form.newPassword) < 6 ==>
      r == PasswordRejected("Password must be at least 6 characters")
    ensures (form.newPassword == form.confirmPassword && JsLength(form.newPassword) >= 6 &&
             (storedId.None? || storedId.value == 0)) ==>
      r == PasswordRejected("User not authenticated")
    ensures r.SendPasswordChange? ==>
      r == SendPasswordChange(storedId.value, form.currentPassword, form.newPassword)
  {
    if form.newPassword != form.confirmPassword then PasswordRejected("New passwords don't match")
    else if JsLength(form.newPassword) < 6 then PasswordRejected("Password must be at least 6 characters")
    else if storedId.None? || storedId.value == 0 then PasswordRejected("User not authenticated")
    else SendPasswordChange(storedId.value, form.currentPassword, form.newPassword)
  }

  /** How the request ended: accepted, refused with the reply's message, or not sent. */
  datatype ServerReply = Accepted | Refused(message: Option<string>) | NetworkFailure

  function PasswordReplyText(reply: ServerReply): (r: (bool, string))
    ensures r.0 <==> reply.Accepted?
    ensures reply.Refused? && reply.message.Some? && reply.message.value != "" ==> r.1 == reply.message.value
    ensures reply.Refused? && (reply.message.None? || reply.message.value == "") ==> r.1 == "Failed to change password"
    ensures reply.NetworkFailure? ==> r.1 == "Network error. Please try again."
  {
    match reply
    case Accepted => (true, "Password changed successfully!")
    case Refused(m) => (false, if m.Some? && m.value != "" then m.value else "Failed to change password")
    case NetworkFailure => (false, "Network error. Please try again.")
  }

  /** Every new password the service accepts for its length also passes the form's
      length check, so the form never holds back one the service would take. */
  lemma FormAllowsServiceLengths(form: PasswordForm, storedId: Option<int>, account: Option<Backend.PasswordAccount>, matches: bool)
    requires form.newPassword == form.confirmPassword && storedId.Some? && storedId.value != 0
    requires Backend.ChangePassword(Some(form.currentPassword), Some(form.newPassword), account, matches).Ok?
    ensures PasswordFormStep(form, storedId).SendPasswordChange?
  {
  }

  /** The converse fails: three characters beyond the Basic Multilingual Plane pass the
      form's check and are refused by the service as too short. */
  lemma FormPassesWhatServiceRefuses()
    ensures JsLength("\U{1F600}\U{1F600}\U{1F600}") == 6
    ensures Backend.ChangePassword(Some("secret"), Some("\U{1F600}\U{1F600}\U{1F600}"), None, true)
      == Err((400, "Password must be at least 6 characters long"))
  {
    var s := "\U{1F600}\U{1F600}\U{1F600}";
    assert s[..2][..1][..0] == [];
  }
}
