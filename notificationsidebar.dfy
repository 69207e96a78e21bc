/** The notification sidebar: which invitations can still be answered, the status
    label shown for answered ones, the updates of the list after each server call
    succeeds, and the age shown beside each notification. */
module NotificationSidebar {
  import opened Common

  /** One notification as the list holds it; `createdAt` is None when it does not read
      as a date. */
  datatype Notice = Notice(notificationId: int, kind: string, relatedId: Option<int>,
    invitationStatus: Option<string>, invitationType: Option<string>, isRead: bool, createdAt: Option<int>)

  /** `notification.relatedid` as a condition: present and not 0. */
  predicate HasRelated(n: Notice) {
    n.relatedId.Some? && n.relatedId.value != 0
  }

  /** `canRespondToInvitation`. */
  predicate CanRespond(n: Notice) {
    n.kind == "meeting_invitation" && HasRelated(n)
    && (!Present(n.invitationStatus) || n.invitationStatus.value == "pending")
  }

  /** `getInvitationStatusDisplay`: the label text, or None when nothing is shown. */
  function StatusLabel(n: Notice): (shown: Option<string>)
    ensures shown.Some? <==>
      (n.kind == "meeting_invitation" && Present(n.invitationStatus) && n.invitationStatus.value != "pending"
       && !(n.invitationStatus.value == "accepted" && n.invitationType == Some("mandatory")))
    ensures shown.Some? ==> (shown.value == "Accepted" <==> n.invitationStatus.value == "accepted")
    ensures shown.Some? ==> (shown.value == "Accepted" || shown.value == "Declined")
  {
    if n.kind != "meeting_invitation" || !Present(n.invitationStatus)
       || (n.invitationStatus.value == "accepted" && n.invitationType == Some("mandatory")) then None
    else if n.invitationStatus.value == "pending" then None
    else Some(if n.invitationStatus.value == "accepted" then "Accepted" else "Declined")
  }

  /** Response buttons and a status label never apply to the same notification. */
  lemma ButtonsExcludeLabel(n: Notice)
    ensures !(CanRespond(n) && StatusLabel(n).Some?)
  {
  }

  /** An invitation answered with a status other than "pending" can no longer be
      answered. */
  lemma AnsweredCannotRespond(n: Notice, response: string)
    requires response != "" && response != "pending"
    ensures !CanRespond(n.(invitationStatus := Some(response)))
  {
  }

  predicate IsUnread(n: Notice) {
    !n.isRead
  }

  /** `notifications.some(n => !n.isread)`: whether "Mark all read" is offered. */
  predicate HasUnread(ns: seq<Notice>) {
    exists i | 0 <= i < |ns| :: !ns[i].isRead
  }

  // ---------------------------------------------------------------------------
  // List updates

  /** `markAsRead`'s update. */
  function MarkRead(ns: seq<Notice>, id: int): (r: seq<Notice>)
    ensures |r| == |ns|
  {
    seq(|ns|, i requires 0 <= i < |ns| => if ns[i].notificationId == id then ns[i].(isRead := true) else ns[i])
  }

  /** `handleInvitationResponse`'s update. */
  function Respond(ns: seq<Notice>, meetingId: Option<int>, response: string): (r: seq<Notice>)
    ensures |r| == |ns|
  {
    seq(|ns|, i requires 0 <= i < |ns| =>
      if ns[i].relatedId == meetingId then ns[i].(invitationStatus := Some(response), isRead := true) else ns[i])
  }

  /** `deleteNotification`'s update. */
  function Delete(ns: seq<Notice>, id: int): (r: seq<Notice>)
    ensures |r| <= |ns|
  {
    Filter(ns, (n: Notice) => n.notificationId != id)
  }

  /** `markAllAsRead`'s update. */
  function MarkAll(ns: seq<Notice>): (r: seq<Notice>)
    ensures |r| == |ns|
  {
    seq(|ns|, i requires 0 <= i < |ns| => ns[i].(isRead := true))
  }

  /** Only the notification with that id is marked, and it may be read afterwards;
      every field but `isRead` stays, and no notification becomes unread. */
  lemma MarkReadEffect(ns: seq<Notice>, id: int)
    ensures forall i | 0 <= i < |ns| :: MarkRead(ns, id)[i].isRead == (ns[i].isRead || ns[i].notificationId == id)
    ensures forall i | 0 <= i < |ns| :: MarkRead(ns, id)[i].(isRead := ns[i].isRead) == ns[i]
    ensures forall i | 0 <= i < |ns| && ns[i].notificationId != id :: MarkRead(ns, id)[i] == ns[i]
    ensures CountWhere(MarkRead(ns, id), IsUnread) <= CountWhere(ns, IsUnread)
  {
    CountUnreadDrops(ns, MarkRead(ns, id));
  }

  /** One list whose entries are each at least as read as another's has no more unread. */
  lemma {:induction false} CountUnreadDrops(ns: seq<Notice>, ms: seq<Notice>)
    requires |ms| == |ns| && forall i | 0 <= i < |ns| :: ns[i].isRead ==> ms[i].isRead
    ensures CountWhere(ms, IsUnread) <= CountWhere(ns, IsUnread)
  {
    if ns != [] {
      CountUnreadDrops(ns[..|ns| - 1], ms[..|ms| - 1]);
    }
  }

  /** Every notice about that meeting takes the response and is read; the others stay. */
  lemma RespondEffect(ns: seq<Notice>, meetingId: Option<int>, response: string)
    ensures forall i | 0 <= i < |ns| && ns[i].relatedId == meetingId ::
      Respond(ns, meetingId, response)[i].invitationStatus == Some(response) && Respond(ns, meetingId, response)[i].isRead
    ensures forall i | 0 <= i < |ns| && ns[i].relatedId == meetingId ::
      Respond(ns, meetingId, response)[i].(invitationStatus := ns[i].invitationStatus, isRead := ns[i].isRead) == ns[i]
    ensures forall i | 0 <= i < |ns| && ns[i].relatedId != meetingId :: Respond(ns, meetingId, response)[i] == ns[i]
    ensures response != "" && response != "pending" ==>
      forall i | 0 <= i < |ns| && ns[i].relatedId == meetingId :: !CanRespond(Respond(ns, meetingId, response)[i])
  {
  }

  /** Exactly the entries with that id go, the others stay in order. */
  lemma {:induction false} DeleteEffect(ns: seq<Notice>, id: int)
    ensures forall n :: n in Delete(ns, id) <==> n in ns && n.notificationId != id
    ensures |Delete(ns, id)| == |ns| - CountWhere(ns, (n: Notice) => n.notificationId == id)
  {
    DeleteCount(ns, id);
  }

  lemma {:induction false} DeleteCount(ns: seq<Notice>, id: int)
    ensures |Filter(ns, (n: Notice) => n.notificationId != id)| == |ns| - CountWhere(ns, (n: Notice) => n.notificationId == id)
  {
    if ns != [] {
      DeleteCount(ns[..|ns| - 1], id);
    }
  }

  /** Every notification is read afterwards, nothing else changes, and the "Mark all
      read" button goes away. */
  lemma MarkAllEffect(ns: seq<Notice>)
    ensures forall i | 0 <= i < |ns| :: MarkAll(ns)[i].isRead && MarkAll(ns)[i].(isRead := ns[i].isRead) == ns[i]
    ensures !HasUnread(MarkAll(ns))
  {
  }

  /** How a request of the panel ended: an `ok` response, a response that is not `ok`,
      or a `fetch` that threw. */
  datatype RequestEnd = Succeeded | Failed | Threw

  class NotificationPanel {
    var notifications: seq<Notice>
    var error: string

    constructor()
      ensures notifications == [] && error == ""
    {
      notifications := [];
      error := "";
    }

    /** `fetchNotifications` once the request ends: the list given (or [] for a missing
        one) on success, an error otherwise. */
    method Loaded(outcome: RequestEnd, list: Option<seq<Notice>>)
      modifies this
      ensures outcome.Succeeded? ==> notifications == (if list.Some? then list.value else []) && error == old(error)
      ensures outcome.Failed? ==> notifications == old(notifications) && error == "Failed to fetch notifications"
      ensures outcome.Threw? ==> notifications == old(notifications) && error == "Error fetching notifications"
    {
      match outcome
      case Succeeded => notifications := if list.Some? then list.value else [];
      case Failed => error := "Failed to fetch notifications";
      case Threw => error := "Error fetching notifications";
    }

    /** `markAsRead(id)`; a request that fails or throws changes nothing. */
    method MarkAsRead(id: int, outcome: RequestEnd)
      modifies this
      ensures notifications == (if outcome.Succeeded? then MarkRead(old(notifications), id) else old(notifications))
      ensures error == old(error)
    {
      if outcome.Succeeded? {
        notifications := MarkRead(notifications, id);
      }
    }

    /** `handleInvitationResponse(meetingId, response)`. */
    method InvitationResponse(meetingId: Option<int>, response: string, outcome: RequestEnd)
      modifies this
      ensures notifications ==
        (if outcome.Succeeded? then Respond(old(notifications), meetingId, response) else old(notifications))
      ensures outcome.Succeeded? ==> error == old(error)
      ensures outcome.Failed? ==> error == "Failed to respond to invitation"
      ensures outcome.Threw? ==> error == "Error responding to invitation"
    {
      match outcome
      case Succeeded => notifications := Respond(notifications, meetingId, response);
      case Failed => error := "Failed to respond to invitation";
      case Threw => error := "Error responding to invitation";
    }

    /** `deleteNotification(id)`. */
    method DeleteNotification(id: int, outcome: RequestEnd)
      modifies this
      ensures notifications == (if outcome.Succeeded? then Delete(old(notifications), id) else old(notifications))
      ensures outcome.Succeeded? ==> error == old(error)
      ensures outcome.Failed? ==> error == "Failed to delete notification"
      ensures outcome.Threw? ==> error == "Error deleting notification"
    {
      match outcome
      case Succeeded => notifications := Delete(notifications, id);
      case Failed => error := "Failed to delete notification";
      case Threw => error := "Error deleting notification";
    }

    /** `markAllAsRead`; a request that fails or throws changes nothing. */
    method MarkAllAsRead(outcome: RequestEnd)
      modifies this
      ensures notifications == (if outcome.Succeeded? then MarkAll(old(notifications)) else old(notifications))
      ensures error == old(error)
    {
      if outcome.Succeeded? {
        notifications := MarkAll(notifications);
      }
    }
  }

  // ---------------------------------------------------------------------------
  // Age of a notification

  const MillisPerHour: int := 1000 * 60 * 60

  /** `formatDate`, given the current instant and the locale's date text for the
      notification; an unreadable date fails every comparison and shows that text. */
  function FormatAge(now: int, createdAt: Option<int>, localeDate: string): (r: string)
    ensures createdAt.Some? && now - createdAt.value < MillisPerHour ==> r == "Just now"
    ensures createdAt.Some? && MillisPerHour <= now - createdAt.value < 24 * MillisPerHour ==>
      r == NatToString((now - createdAt.value) / MillisPerHour) + "h ago"
    ensures createdAt.Some? && 24 * MillisPerHour <= now - createdAt.value < 48 * MillisPerHour ==> r == "Yesterday"
    ensures (createdAt.None? || now - createdAt.value >= 48 * MillisPerHour) ==> r == localeDate
  {
    if createdAt.None? then localeDate
    else
      var diff := now - createdAt.value;
      if diff < MillisPerHour then "Just now"
      else if diff < 24 * MillisPerHour then NatToString(diff / MillisPerHour) + "h ago"
      else if diff < 48 * MillisPerHour then "Yesterday"
      else localeDate
  }

  /** The hours shown run from 1 to 23 and never exceed the real age. */
  lemma HoursShown(now: int, created: int)
    requires MillisPerHour <= now - created < 24 * MillisPerHour
    ensures 1 <= (now - created) / MillisPerHour <= 23
    ensures (now - created) / MillisPerHour * MillisPerHour <= now - created < ((now - created) / MillisPerHour + 1) * MillisPerHour
  {
  }
}
