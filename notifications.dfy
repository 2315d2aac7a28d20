/** `GET` and `PATCH /api/notifications` of src/app/api/notifications/route.ts:
    the signed-in user's own notifications, newest first, with the number still
    unread; and marking some or all of them read. Every statement is scoped by
    `user_id = $1`, so nobody sees or touches another user's rows. */
module NotificationsRoute {
  import opened Js
  import opened Schema
  import opened Sql
  import opened Access

  const Unauthorized: string := "Unauthorized."
  const NothingSelected: string := "No notifications selected."

  /** One entry of the `notifications` array of the reply. */
  datatype NotificationView = NotificationView(id: string, kind: string, title: string, body: Option<string>,
                                               createdAt: int, readAt: Option<int>)

  datatype Listing = Listing(notifications: seq<NotificationView>, unreadCount: nat)

  function View(n: Notification): NotificationView {
    NotificationView(n.id, n.kind, n.title, n.body, n.createdAt, n.readAt)
  }

  function CreatedAt(n: Notification): int { n.createdAt }

  /** `limit`: 10 by default and when not finite, otherwise clamped into [5, 50]. */
  function ListLimit(limit: Option<JsNumber>): (n: int)
    ensures 5 <= n <= 50
    ensures limit.None? || !limit.value.Finite? ==> n == 10
    ensures limit.Some? && limit.value.Finite? ==> n == Min(Max(limit.value.value, 5), 50)
  {
    ClampParam(limit, 10, 5, 50)
  }

  /** The `where` clause assembled from `conditions`: the caller's rows, unread ones
      only when `unread=1`, and of the given type when a non-empty `type` is given. */
  function Shown(userId: string, unreadOnly: bool, kind: Option<string>): Notification -> bool {
    (n: Notification) => n.userId == userId && (unreadOnly ==> n.readAt.None?)
                         && (Truthy(kind) ==> n.kind == kind.value)
  }

  /** `where user_id = $1 and read_at is null`. */
  function UnreadOf(userId: string): Notification -> bool {
    (n: Notification) => n.userId == userId && n.readAt.None?
  }

  function Views(rows: seq<Notification>): (vs: seq<NotificationView>)
    ensures |vs| == |rows|
    ensures forall i :: 0 <= i < |rows| ==> vs[i] == View(rows[i])
  {
    seq(|rows|, i requires 0 <= i < |rows| => View(rows[i]))
  }

  /** The `GET` handler. `unread` and `kind` are the raw `unread` and `type` search
      parameters, `limit` the `Number(...)` of the `limit` one. */
  function Get(access: Option<AccessContext>, limit: Option<JsNumber>, unread: Option<string>,
               kind: Option<string>, rows: seq<Notification>): (reply: Reply<Listing>)
    ensures reply.Fail? <==> access.None?
    ensures reply.Fail? ==> reply == Fail(401, Unauthorized)
    ensures reply.Ok? ==>
              var shown := Top(rows, Shown(access.value.userId, unread == Some("1"), kind), CreatedAt, ListLimit(limit));
              && reply.body.notifications == Views(shown)
              && (forall n :: n in shown ==> n in rows && n.userId == access.value.userId)
              && (unread == Some("1") ==> forall n :: n in shown ==> n.readAt.None?)
              && (Truthy(kind) ==> forall n :: n in shown ==> n.kind == kind.value)
              && SortedDesc(shown, CreatedAt)
              && |shown| == Min(ListLimit(limit), Count(rows, Shown(access.value.userId, unread == Some("1"), kind)))
    ensures reply.Ok? ==> reply.body.unreadCount == Count(rows, UnreadOf(access.value.userId))
  {
    if access.None? then Fail(401, Unauthorized)
    else
      var userId := access.value.userId;
      var n := ListLimit(limit);
      var shown := Top(rows, Shown(userId, unread == Some("1"), kind), CreatedAt, n);
      Ok(Listing(Views(shown), Count(rows, UnreadOf(userId))))
  }

  /** The unread count ignores the `unread`, `type` and `limit` parameters. */
  lemma UnreadCountIgnoresFilters(access: Option<AccessContext>, rows: seq<Notification>,
                                  limit1: Option<JsNumber>, unread1: Option<string>, kind1: Option<string>,
                                  limit2: Option<JsNumber>, unread2: Option<string>, kind2: Option<string>)
    requires access.Some?
    ensures Get(access, limit1, unread1, kind1, rows).body.unreadCount
            == Get(access, limit2, unread2, kind2, rows).body.unreadCount
  {
  }

  // ---------------------------------------------------------------------------
  // PATCH

  /** The parsed JSON body: `ids` when it is an array, and whether `all` is the
      boolean `true`. A body that is not JSON is None. */
  datatype PatchBody = PatchBody(ids: Option<seq<string>>, all: bool)

  /** One row after the update: `read_at` set when the row is selected. */
  function Marked(n: Notification, selected: Notification -> bool, now: int): Notification {
    if selected(n) then n.(readAt := Some(now)) else n
  }

  /** `update notifications set read_at = now() where <selected>`: the rows after
      the update, and the statement's `rowCount`, the number of rows selected. */
  function SetReadAt(rows: seq<Notification>, selected: Notification -> bool, now: int)
    : (r: (seq<Notification>, nat))
    ensures |r.0| == |rows|
    ensures forall i :: 0 <= i < |rows| ==> r.0[i] == Marked(rows[i], selected, now)
  {
    (seq(|rows|, i requires 0 <= i < |rows| => Marked(rows[i], selected, now)), Count(rows, selected))
  }

  /** `where user_id = $1 and id = any($2)`: already-read rows are selected too, and
      their `read_at` is overwritten. */
  function AmongIds(userId: string, ids: seq<string>): Notification -> bool {
    (n: Notification) => n.userId == userId && n.id in ids
  }

  /** The decision of `PATCH`: 401 when signed out, 400 without `all` and without a
      non-empty `ids` array, otherwise the row selection of the update. */
  function PatchSelection(access: Option<AccessContext>, body: Option<PatchBody>)
    : (r: Reply<Notification -> bool>)
    ensures r.Fail? <==> access.None? || !(body.Some? && (body.value.all || (body.value.ids.Some? && body.value.ids.value != [])))
    ensures access.None? ==> r == Fail(401, Unauthorized)
    ensures access.Some? && r.Fail? ==> r == Fail(400, NothingSelected)
    ensures r.Ok? && body.value.all ==> r.body == UnreadOf(access.value.userId)
    ensures r.Ok? && !body.value.all ==> r.body == AmongIds(access.value.userId, body.value.ids.value)
  {
    if access.None? then Fail(401, Unauthorized)
    else if body.None? || (!body.value.all && (body.value.ids.None? || body.value.ids.value == [])) then
      Fail(400, NothingSelected)
    else if body.value.all then Ok(UnreadOf(access.value.userId))
    else Ok(AmongIds(access.value.userId, body.value.ids.value))
  }

  /** The `PATCH` handler: replies `{ updated }` with the number of rows changed. */
  method Patch(db: Database, access: Option<AccessContext>, body: Option<PatchBody>, now: int)
    returns (reply: Reply<nat>)
    modifies db`notifications
    ensures PatchSelection(access, body).Fail? ==>
              reply == Fail(PatchSelection(access, body).status, PatchSelection(access, body).error)
              && db.notifications == old(db.notifications)
    ensures PatchSelection(access, body).Ok? ==>
              var selected := PatchSelection(access, body).body;
              && reply == Ok(Count(old(db.notifications), selected))
              && db.notifications == SetReadAt(old(db.notifications), selected, now).0
    ensures |db.notifications| == |old(db.notifications)|
    ensures forall i :: 0 <= i < |db.notifications| && old(db.notifications[i]).userId != (if access.Some? then access.value.userId else "")
              ==> db.notifications[i] == old(db.notifications[i])
  {
    var selection := PatchSelection(access, body);
    if selection.Fail? {
      return Fail(selection.status, selection.error);
    }
    var result := SetReadAt(db.notifications, selection.body, now);
    db.notifications := result.0;
    reply := Ok(result.1);
  }

  /** Marking a selection read never touches another user's row and changes
      nothing but `read_at`. */
  lemma MarkingKeepsOthers(rows: seq<Notification>, userId: string, ids: seq<string>, now: int)
    ensures forall i :: 0 <= i < |rows| && rows[i].userId != userId ==>
              SetReadAt(rows, UnreadOf(userId), now).0[i] == rows[i]
              && SetReadAt(rows, AmongIds(userId, ids), now).0[i] == rows[i]
    ensures forall i :: 0 <= i < |rows| ==>
              SetReadAt(rows, AmongIds(userId, ids), now).0[i] == rows[i].(readAt := SetReadAt(rows, AmongIds(userId, ids), now).0[i].readAt)
  {
  }

  /** After "mark all read" the caller has nothing unread, and marking all again
      updates no row. */
  lemma MarkAllClearsUnread(rows: seq<Notification>, userId: string, now: int, later: int)
    ensures Count(SetReadAt(rows, UnreadOf(userId), now).0, UnreadOf(userId)) == 0
    ensures SetReadAt(SetReadAt(rows, UnreadOf(userId), now).0, UnreadOf(userId), later).1 == 0
  {
    var after := SetReadAt(rows, UnreadOf(userId), now).0;
    forall n | n in after
      ensures !UnreadOf(userId)(n)
    {
      var i :| 0 <= i < |after| && after[i] == n;
    }
  }

  /** Marking chosen ids leaves each of the caller's chosen rows read, whatever it
      was before. */
  lemma MarkedIdsAreRead(rows: seq<Notification>, userId: string, ids: seq<string>, now: int)
    ensures forall i :: 0 <= i < |rows| && rows[i].userId == userId && rows[i].id in ids ==>
              SetReadAt(rows, AmongIds(userId, ids), now).0[i].readAt == Some(now)
    ensures forall i :: 0 <= i < |rows| && !(rows[i].userId == userId && rows[i].id in ids) ==>
              SetReadAt(rows, AmongIds(userId, ids), now).0[i] == rows[i]
  {
  }
}
