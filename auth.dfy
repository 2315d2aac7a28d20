/** The session store of src/lib/server/auth.ts: the `user_sessions` table,
    keyed by an opaque id that travels in the `sportcamp_session` cookie,
    with an expiry 14 days after creation. Reading a session is a pure
    lookup with an expiry filter; creating and clearing one insert into and
    delete from the table. */
module Auth {
  import opened Js
  import opened Schema

  const SESSION_COOKIE: string := "sportcamp_session"
  const SESSION_TTL_DAYS: int := 14

  /** `SESSION_TTL_DAYS * 24 * 60 * 60 * 1000`, in milliseconds. */
  const SessionTtlMs: int := SESSION_TTL_DAYS * 24 * 60 * 60 * 1000

  /** One row of the session-join query. */
  datatype SessionUser = SessionUser(id: string, email: string, fullName: Option<string>,
                                     isSuperadmin: bool, sessionId: string)

  /** The first profile with the given id, if any. */
  function FindProfile(profiles: seq<Profile>, id: string): (r: Option<Profile>)
    ensures r.Some? <==> exists p :: p in profiles && p.id == id
    ensures r.Some? ==> r.value in profiles && r.value.id == id
  {
    if profiles == [] then None
    else if profiles[0].id == id then Some(profiles[0])
    else FindProfile(profiles[1..], id)
  }

  /** The session row `s` is live at `now` and its user has a profile. */
  predicate Resolves(s: SessionRow, profiles: seq<Profile>, sessionId: string, now: int) {
    s.id == sessionId && s.expiresAt > now && exists p :: p in profiles && p.id == s.userId
  }

  /** `rows[0]` of `select … from user_sessions s join profiles p on p.id = s.user_id
      where s.id = $1 and s.expires_at > now()`, scanning the sessions in table order. */
  function LiveSessionUser(sessions: seq<SessionRow>, profiles: seq<Profile>,
                           sessionId: string, now: int): (u: Option<SessionUser>)
    ensures u.Some? <==> exists s :: s in sessions && Resolves(s, profiles, sessionId, now)
    ensures u.Some? ==> exists s, p :: s in sessions && p in profiles
                                     && s.id == sessionId && s.expiresAt > now && p.id == s.userId
                                     && u.value == SessionUser(p.id, p.email, p.fullName, p.isSuperadmin, s.id)
  {
    if sessions == [] then None
    else
      var s := sessions[0];
      var p := FindProfile(profiles, s.userId);
      if s.id == sessionId && s.expiresAt > now && p.Some? then
        assert sessions[0] in sessions && Resolves(sessions[0], profiles, sessionId, now);
        Some(SessionUser(p.value.id, p.value.email, p.value.fullName, p.value.isSuperadmin, s.id))
      else
        assert forall t :: t in sessions[1..] ==> t in sessions;
        assert forall t :: t in sessions ==> t == s || t in sessions[1..];
        LiveSessionUser(sessions[1..], profiles, sessionId, now)
  }

  /** `getSessionUser`: without a session cookie the table is not consulted and the
      result is null; otherwise the user of a live session (strictly unexpired) with
      that id. Expired rows are ignored, never deleted: this is a read. */
  function GetSessionUser(cookie: Option<string>, sessions: seq<SessionRow>,
                          profiles: seq<Profile>, now: int): (u: Option<SessionUser>)
    ensures !Truthy(cookie) ==> u.None?
    ensures u.Some? ==> u.value.sessionId == cookie.value
                        && exists s :: s in sessions && s.id == cookie.value
                                       && s.expiresAt > now && s.userId == u.value.id
    ensures Truthy(cookie) && (exists s :: s in sessions && Resolves(s, profiles, cookie.value, now))
            ==> u.Some?
  {
    if !Truthy(cookie) then None else LiveSessionUser(sessions, profiles, cookie.value, now)
  }

  /** The session table without the rows whose id is `id`. */
  function DeleteSession(sessions: seq<SessionRow>, id: string): (r: seq<SessionRow>)
    ensures forall s :: s in r <==> s in sessions && s.id != id
    ensures |r| <= |sessions|
  {
    if sessions == [] then []
    else if sessions[0].id == id then DeleteSession(sessions[1..], id)
    else [sessions[0]] + DeleteSession(sessions[1..], id)
  }

  /** `createSession`: inserts exactly one row (fresh id, user, now + 14 days) and
      returns that id and expiry. The fresh id stands for `randomUUID()`. */
  method CreateSession(db: Database, userId: string, freshId: string, now: int)
    returns (sessionId: string, expiresAt: int)
    requires forall s :: s in db.userSessions ==> s.id != freshId
    modifies db`userSessions
    ensures sessionId == freshId && expiresAt == now + SessionTtlMs
    ensures db.userSessions == old(db.userSessions) + [SessionRow(sessionId, userId, expiresAt)]
  {
    sessionId := freshId;
    expiresAt := now + SESSION_TTL_DAYS * 24 * 60 * 60 * 1000;
    db.userSessions := db.userSessions + [SessionRow(sessionId, userId, expiresAt)];
  }

  /** `clearSession`: nothing without a cookie; otherwise deletes the rows whose id
      is the cookie value and no other. */
  method ClearSession(db: Database, cookie: Option<string>)
    modifies db`userSessions
    ensures !Truthy(cookie) ==> db.userSessions == old(db.userSessions)
    ensures Truthy(cookie) ==> db.userSessions == DeleteSession(old(db.userSessions), cookie.value)
  {
    if !Truthy(cookie) {
      return;
    }
    db.userSessions := DeleteSession(db.userSessions, cookie.value);
  }

  /** A session created at `now` for a user with a profile resolves to that user at
      every instant before its expiry, and to nobody from its expiry on. */
  lemma NewSessionLifetime(sessions: seq<SessionRow>, profiles: seq<Profile>,
                           userId: string, freshId: string, now: int, t: int)
    requires freshId != ""
    requires forall s :: s in sessions ==> s.id != freshId
    requires exists p :: p in profiles && p.id == userId
    ensures var u := GetSessionUser(Some(freshId), sessions + [SessionRow(freshId, userId, now + SessionTtlMs)], profiles, t);
            && (t < now + SessionTtlMs ==> u.Some? && u.value.id == userId && u.value.sessionId == freshId)
            && (t >= now + SessionTtlMs ==> u.None?)
  {
    var row := SessionRow(freshId, userId, now + SessionTtlMs);
    var all := sessions + [row];
    assert row in all;
    assert forall s :: s in all && s.id == freshId ==> s == row;
  }

  /** After `clearSession` the cleared cookie no longer resolves to anybody. */
  lemma ClearedSessionIsGone(sessions: seq<SessionRow>, profiles: seq<Profile>, id: string, t: int)
    ensures GetSessionUser(Some(id), DeleteSession(sessions, id), profiles, t).None?
  {
  }
}
