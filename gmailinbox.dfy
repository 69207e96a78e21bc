/** The Gmail inbox panel: the message list as pages arrive, opening, deleting,
    the guards on replying and forwarding, and the activities made from the events
    the AI service finds in a message. Every Gmail, AI and server call is a parameter
    standing for its outcome. */
module GmailInbox {
  import opened Common
  import opened GmailService
  import AiService

  /** One page as `getMessages` returns it. */
  datatype Page = Page(messages: seq<Message>, nextPageToken: Option<string>)

  /** The error text `loadMessages` shows when loading fails with that message. */
  function LoadErrorText(message: string): (r: string)
    ensures Contains(message, "401") ==> r == "Authentication expired. Please refresh and sign in again."
    ensures !Contains(message, "401") ==>
      r == "Failed to load messages: " + (if message == "" then "An unknown error occurred" else message)
  {
    if message != "" && Contains(message, "401") then "Authentication expired. Please refresh and sign in again."
    else "Failed to load messages: " + (if message == "" then "An unknown error occurred" else message)
  }

  /** `m.id === id ? { ...m, isUnread: false } : m` over the list. */
  function MarkOpened(ms: seq<Message>, id: string): (r: seq<Message>)
    ensures |r| == |ms|
    ensures forall i | 0 <= i < |ms| :: r[i].isUnread == (ms[i].isUnread && ms[i].id != id)
    ensures forall i | 0 <= i < |ms| :: r[i].(isUnread := ms[i].isUnread) == ms[i]
  {
    seq(|ms|, i requires 0 <= i < |ms| => if ms[i].id == id then ms[i].(isUnread := false) else ms[i])
  }

  predicate OtherId(id: string, m: Message) {
    m.id != id
  }

  /** `prev.filter((m) => m.id !== id)`. */
  function WithoutId(ms: seq<Message>, id: string): (r: seq<Message>)
    ensures forall m :: m in r <==> m in ms && m.id != id
    ensures |r| <= |ms|
  {
    Filter(ms, m => OtherId(id, m))
  }

  /** Removing a message removes every copy with that id and keeps the others in order:
      a list without the id is left as it was. */
  lemma {:induction false} WithoutAbsentId(ms: seq<Message>, id: string)
    requires forall i | 0 <= i < |ms| :: ms[i].id != id
    ensures WithoutId(ms, id) == ms
  {
    if ms != [] {
      WithoutAbsentId(ms[..|ms| - 1], id);
      assert ms == ms[..|ms| - 1] + [ms[|ms| - 1]];
    }
  }

  /** The record posted to create one activity from an event the AI service found. */
  datatype ActivityRecord = ActivityRecord(userId: Option<int>, title: Option<string>, description: string,
    category: string, urgency: string, date: Option<string>, startTime: Option<string>, endTime: Option<string>)

  /** How a template literal prints an event field that the reply left out. */
  function FieldText(s: Option<string>): string {
    if s.Some? then s.value else "undefined"
  }

  /** `activityData` for one event: category and urgency default to "work" and
      "medium" when missing or empty. */
  function ActivityFromEvent(e: AiService.EventCandidate, subject: string, userId: Option<int>): (r: ActivityRecord)
    ensures r.category != "" && r.urgency != ""
  {
    ActivityRecord(userId, e.title, FieldText(e.description) + "\n\nCreated from email: " + subject,
      if Present(e.category) then e.category.value else "work",
      if Present(e.urgency) then e.urgency.value else "medium",
      e.date, e.startTime, e.endTime)
  }

  /** The record keeps the event's title, date and times, takes its category and
      urgency unless those are missing or empty, and its description is the event's
      followed by a line naming the e-mail's subject. */
  lemma ActivityDescribesEmail(e: AiService.EventCandidate, subject: string, userId: Option<int>)
    ensures var r := ActivityFromEvent(e, subject, userId);
      (r.category == (if Present(e.category) then e.category.value else "work"))
      && (r.urgency == (if Present(e.urgency) then e.urgency.value else "medium"))
      && |subject| <= |r.description|
      && r.description[..|r.description| - |subject|] == FieldText(e.description) + "\n\nCreated from email: "
      && r.description[|r.description| - |subject|..] == subject
      && r.title == e.title && r.date == e.date && r.startTime == e.startTime && r.endTime == e.endTime
      && r.userId == userId
  {
  }

  /** How many of the first `n` requests were answered OK; a missing answer is a
      failure. */
  function OkCount(responses: seq<bool>, n: nat): (c: nat)
    ensures c <= n
  {
    if n == 0 then 0 else OkCount(responses, n - 1) + (if n - 1 < |responses| && responses[n - 1] then 1 else 0)
  }

  /** Some request succeeded exactly when the count is positive. */
  lemma {:induction false} OkCountPositive(responses: seq<bool>, n: nat)
    ensures OkCount(responses, n) > 0 <==> exists i | 0 <= i < n :: i < |responses| && responses[i]
  {
    if n > 0 {
      OkCountPositive(responses, n - 1);
      if n - 1 < |responses| && responses[n - 1] {
        assert 0 <= n - 1 < n && n - 1 < |responses| && responses[n - 1];
      }
    }
  }

  /** The alert shown after the requests. */
  function PlannerNotice(createdCount: nat): (r: string)
    ensures createdCount > 0 <==> StartsWith(r, "Successfully")
  {
    if createdCount > 0 then
      var r := "Successfully created " + NatToString(createdCount) + " event(s) from this email!";
      assert r[..12] == "Successfully";
      r
    else
      var r := "Failed to create events from this email.";
      assert r[0] != "Successfully"[0];
      r
  }

  /** The loop of `handleForwardToPlanner`: one record per event, and the number of
      requests answered OK. */
  method CreateActivities(events: seq<AiService.EventCandidate>, subject: string, userId: Option<int>,
                          responses: seq<bool>)
    returns (records: seq<ActivityRecord>, createdCount: nat)
    ensures |records| == |events|
    ensures forall i | 0 <= i < |records| :: records[i] == ActivityFromEvent(events[i], subject, userId)
    ensures createdCount == OkCount(responses, |events|)
  {
    records := [];
    createdCount := 0;
    var i := 0;
    while i < |events|
      invariant 0 <= i <= |events|
      invariant |records| == i
      invariant forall k | 0 <= k < i :: records[k] == ActivityFromEvent(events[k], subject, userId)
      invariant createdCount == OkCount(responses, i)
    {
      var record := ActivityFromEvent(events[i], subject, userId);
      records := records + [record];
      if i < |responses| && responses[i] {
        createdCount := createdCount + 1;
      }
      i := i + 1;
    }
  }

  class Inbox {
    var messages: seq<Message>
    var selected: Option<Message>
    var nextPageToken: Option<string>
    var searchQuery: string
    var authError: string
    var replyText: string
    var forwardTo: string
    var forwardText: string

    constructor()
      ensures messages == [] && selected.None? && nextPageToken.None? && searchQuery == "" && authError == ""
      ensures replyText == "" && forwardTo == "" && forwardText == ""
    {
      messages := [];
      selected := None;
      nextPageToken := None;
      searchQuery := "";
      authError := "";
      replyText := "";
      forwardTo := "";
      forwardText := "";
    }

    /** `loadMessages(query, pageToken)` given whether an access token is available and
        what `getMessages` returned: a page is appended when a token was given and
        replaces the list otherwise; a failure keeps the list and shows an error. */
    method LoadMessages(pageToken: Option<string>, hasAccessToken: bool, reply: Result<Page, string>)
      modifies this
      ensures hasAccessToken && reply.Ok? ==>
        messages == (if pageToken.Some? then old(messages) + reply.value.messages else reply.value.messages)
        && nextPageToken == reply.value.nextPageToken && authError == ""
      ensures !hasAccessToken ==>
        (messages == old(messages) && nextPageToken == old(nextPageToken)
         && authError == LoadErrorText("No access token available"))
      ensures hasAccessToken && reply.Err? ==>
        (messages == old(messages) && nextPageToken == old(nextPageToken) && authError == LoadErrorText(reply.error))
      ensures selected == old(selected) && searchQuery == old(searchQuery)
      ensures replyText == old(replyText) && forwardTo == old(forwardTo) && forwardText == old(forwardText)
    {
      if !hasAccessToken {
        authError := LoadErrorText("No access token available");
      } else if reply.Err? {
        authError := LoadErrorText(reply.error);
      } else {
        authError := "";
        messages := if pageToken.Some? then messages + reply.value.messages else reply.value.messages;
        nextPageToken := reply.value.nextPageToken;
      }
    }

    /** `handleLoadMore`: with no next page token nothing happens. */
    method LoadMore(hasAccessToken: bool, reply: Result<Page, string>)
      modifies this
      ensures !Present(old(nextPageToken)) ==>
        messages == old(messages) && nextPageToken == old(nextPageToken) && authError == old(authError)
      ensures Present(old(nextPageToken)) && hasAccessToken && reply.Ok? ==>
        messages == old(messages) + reply.value.messages && nextPageToken == reply.value.nextPageToken
        && authError == ""
      ensures Present(old(nextPageToken)) && !hasAccessToken ==>
        messages == old(messages) && nextPageToken == old(nextPageToken)
        && authError == LoadErrorText("No access token available")
      ensures Present(old(nextPageToken)) && hasAccessToken && reply.Err? ==>
        messages == old(messages) && nextPageToken == old(nextPageToken) && authError == LoadErrorText(reply.error)
      ensures selected == old(selected) && searchQuery == old(searchQuery)
      ensures replyText == old(replyText) && forwardTo == old(forwardTo) && forwardText == old(forwardText)
    {
      if Present(nextPageToken) {
        LoadMessages(nextPageToken, hasAccessToken, reply);
      }
    }

    /** `handleSearch` / `handleRefresh`: the selection goes and the first page is
        loaded afresh; a refresh also clears the query. */
    method Reload(clearQuery: bool, hasAccessToken: bool, reply: Result<Page, string>)
      modifies this
      ensures selected.None?
      ensures searchQuery == (if clearQuery then "" else old(searchQuery))
      ensures hasAccessToken && reply.Ok? ==>
        messages == reply.value.messages && nextPageToken == reply.value.nextPageToken && authError == ""
      ensures !hasAccessToken ==>
        messages == old(messages) && nextPageToken == old(nextPageToken)
        && authError == LoadErrorText("No access token available")
      ensures hasAccessToken && reply.Err? ==>
        messages == old(messages) && nextPageToken == old(nextPageToken) && authError == LoadErrorText(reply.error)
      ensures replyText == old(replyText) && forwardTo == old(forwardTo) && forwardText == old(forwardText)
    {
      selected := None;
      if clearQuery {
        searchQuery := "";
      }
      LoadMessages(None, hasAccessToken, reply);
    }

    /** `handleMessageClick`: the message is selected, and an unread one is marked read
        in the list once the server accepts. */
    method OpenMessage(message: Message, markedRead: bool)
      modifies this
      ensures selected == Some(message)
      ensures messages == (if message.isUnread && markedRead then MarkOpened(old(messages), message.id) else old(messages))
      ensures nextPageToken == old(nextPageToken) && authError == old(authError) && searchQuery == old(searchQuery)
      ensures replyText == old(replyText) && forwardTo == old(forwardTo) && forwardText == old(forwardText)
    {
      selected := Some(message);
      if message.isUnread && markedRead {
        messages := MarkOpened(messages, message.id);
      }
    }

    /** `handleDeleteMessage`: with a selection, a confirmation and an accepted request,
        the selected id leaves the list and the selection is cleared. */
    method DeleteSelected(confirmed: bool, deleted: bool)
      modifies this
      ensures old(selected).Some? && confirmed && deleted ==>
        messages == WithoutId(old(messages), old(selected).value.id) && selected.None?
      ensures !(old(selected).Some? && confirmed && deleted) ==> messages == old(messages) && selected == old(selected)
      ensures nextPageToken == old(nextPageToken) && authError == old(authError) && searchQuery == old(searchQuery)
      ensures replyText == old(replyText) && forwardTo == old(forwardTo) && forwardText == old(forwardText)
    {
      if selected.None? {
        return;
      }
      if confirmed && deleted {
        messages := WithoutId(messages, selected.value.id);
        selected := None;
      }
    }

    /** `handleReply`: whether a reply is sent; the text is cleared once it was. */
    method Reply(sentOk: bool) returns (attempted: bool)
      modifies this
      ensures attempted <==> selected.Some? && !IsBlank(old(replyText))
      ensures replyText == (if attempted && sentOk then "" else old(replyText))
      ensures messages == old(messages) && selected == old(selected) && nextPageToken == old(nextPageToken)
      ensures authError == old(authError) && searchQuery == old(searchQuery)
      ensures forwardTo == old(forwardTo) && forwardText == old(forwardText)
    {
      if selected.None? || IsBlank(replyText) {
        return false;
      }
      if sentOk {
        replyText := "";
      }
      return true;
    }

    /** `handleForward`: whether the message is forwarded; once it is, the form and the
        selection are cleared and the first page is loaded afresh. */
    method Forward(sentOk: bool, hasAccessToken: bool, reply: Result<Page, string>) returns (attempted: bool)
      modifies this
      ensures attempted <==> old(selected).Some? && !IsBlank(old(forwardTo))
      ensures attempted && sentOk ==> forwardTo == "" && forwardText == "" && selected.None? && searchQuery == ""
      ensures attempted && sentOk && hasAccessToken && reply.Ok? ==>
        messages == reply.value.messages && nextPageToken == reply.value.nextPageToken && authError == ""
      ensures attempted && sentOk && !hasAccessToken ==>
        messages == old(messages) && nextPageToken == old(nextPageToken)
        && authError == LoadErrorText("No access token available")
      ensures attempted && sentOk && hasAccessToken && reply.Err? ==>
        messages == old(messages) && nextPageToken == old(nextPageToken) && authError == LoadErrorText(reply.error)
      ensures !(attempted && sentOk) ==>
        messages == old(messages) && selected == old(selected) && forwardTo == old(forwardTo)
        && forwardText == old(forwardText) && searchQuery == old(searchQuery) && authError == old(authError)
        && nextPageToken == old(nextPageToken)
      ensures replyText == old(replyText)
    {
      if selected.None? || IsBlank(forwardTo) {
        return false;
      }
      if sentOk {
        forwardTo := "";
        forwardText := "";
        selected := None;
        searchQuery := "";
        LoadMessages(None, hasAccessToken, reply);
      }
      return true;
    }

    /** `handleForwardToPlanner` given the AI service's analysis of the selected message
        and the answer to each creation request: the records posted, how many were
        created, and the alert shown (None without a selection). */
    method ForwardToPlanner(analysis: AiService.EmailAnalysis, userId: Option<int>, responses: seq<bool>)
      returns (records: seq<ActivityRecord>, createdCount: nat, notice: Option<string>)
      ensures selected.None? ==> records == [] && createdCount == 0 && notice.None?
      ensures selected.Some? && !(analysis.hasEvent && |analysis.events| > 0) ==>
        records == [] && createdCount == 0 && notice == Some("No event information detected in this email.")
      ensures selected.Some? && analysis.hasEvent && |analysis.events| > 0 ==>
        |records| == |analysis.events|
        && (forall i | 0 <= i < |records| ::
              records[i] == ActivityFromEvent(analysis.events[i], selected.value.subject, userId))
        && createdCount == OkCount(responses, |analysis.events|)
        && notice == Some(PlannerNotice(createdCount))
    {
      if selected.None? {
        return [], 0, None;
      }
      if !(analysis.hasEvent && |analysis.events| > 0) {
        return [], 0, Some("No event information detected in this email.");
      }
      records, createdCount := CreateActivities(analysis.events, selected.value.subject, userId, responses);
      notice := Some(PlannerNotice(createdCount));
    }
  }
}
