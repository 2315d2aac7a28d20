/** `GET` and `POST /api/attendance` of src/app/api/attendance/route.ts. A student
    lists their own check-ins, staff those of sessions in clubs where they are
    admin or coach, a superadmin all of them. `POST` is the QR check-in: the
    scanning user must be a student of the session's club, and checking in is
    idempotent per (session, student). */
module AttendanceRoute {
  import opened Js
  import opened Schema
  import opened Sql
  import opened Auth
  import opened Access

  const Unauthorized: string := "Unauthorized."
  const TokenRequired: string := "QR token required."
  const SessionNotFound: string := "Session not found."
  const OnlyStudents: string := "Only students can check in."

  /** The `limit` query parameter: default 25, non-finite falls back to 25, else
      clamped to [5, 100]. */
  function ListLimit(limit: Option<JsNumber>): (n: int)
    ensures 5 <= n <= 100
    ensures limit.None? || !limit.value.Finite? ==> n == 25
    ensures limit.Some? && limit.value.Finite? ==> n == Min(Max(limit.value.value, 5), 100)
  {
    ClampParam(limit, 25, 5, 100)
  }

  function ScannedAt(a: Attendance): int { a.scannedAt }

  /** A check-in of a session held in a club where `userId` is admin or coach. */
  predicate StaffScope(sessions: seq<TrainingSession>, ms: seq<Membership>, userId: string, a: Attendance) {
    exists s :: s in sessions && s.id == a.sessionId && HoldsRoleIn(ms, userId, s.clubId, {Admin, Coach})
  }

  /** The inner joins of `GET`: every query joins the check-in's session; the staff
      and superadmin query also joins the student's profile. */
  predicate Joined(access: AccessContext, sessions: seq<TrainingSession>, profiles: seq<Profile>, a: Attendance) {
    (exists s :: s in sessions && s.id == a.sessionId)
    && (access.role == Student || FindProfile(profiles, a.studentId).Some?)
  }

  /** The rows the caller's role lets them see, among those the joins keep. */
  predicate Visible(access: AccessContext, sessions: seq<TrainingSession>, ms: seq<Membership>,
                    profiles: seq<Profile>, a: Attendance) {
    Joined(access, sessions, profiles, a)
    && match access.role
       case Student => a.studentId == access.userId
       case Superadmin => true
       case _ => StaffScope(sessions, ms, access.userId, a)
  }

  /** `GET`: 401 when signed out; otherwise the visible check-ins, latest first, at
      most `ListLimit` of them and none left out when fewer are returned. */
  function List(access: Option<AccessContext>, limit: Option<JsNumber>, sessions: seq<TrainingSession>,
                ms: seq<Membership>, profiles: seq<Profile>, attendance: seq<Attendance>): (r: Reply<seq<Attendance>>)
    ensures access.None? <==> r.Fail?
    ensures r.Fail? ==> r == Fail(401, Unauthorized)
    ensures r.Ok? ==> SortedDesc(r.body, ScannedAt) && |r.body| <= ListLimit(limit)
    ensures r.Ok? ==> forall a :: a in r.body ==> a in attendance && Visible(access.value, sessions, ms, profiles, a)
    ensures r.Ok? && |r.body| < ListLimit(limit) ==>
              forall a :: a in attendance && Visible(access.value, sessions, ms, profiles, a) ==> a in r.body
    ensures r.Ok? ==> |r.body| == Min(ListLimit(limit), Count(attendance, VisibleTo(access.value, sessions, ms, profiles)))
    ensures r.Ok? ==> forall a, b :: a in r.body && b in attendance && b !in r.body
                                     && Visible(access.value, sessions, ms, profiles, b)
                                     ==> b.scannedAt <= a.scannedAt
  {
    if access.None? then Fail(401, Unauthorized)
    else
      var p := VisibleTo(access.value, sessions, ms, profiles);
      TopIsNewest(attendance, p, ScannedAt, ListLimit(limit));
      Ok(Top(attendance, p, ScannedAt, ListLimit(limit)))
  }

  function VisibleTo(access: AccessContext, sessions: seq<TrainingSession>, ms: seq<Membership>,
                     profiles: seq<Profile>): Attendance -> bool {
    (a: Attendance) => Visible(access, sessions, ms, profiles, a)
  }

  /** `rows[0]` of `select id, club_id from sessions where qr_token = $1`. */
  function FindByToken(sessions: seq<TrainingSession>, token: string): (r: Option<TrainingSession>)
    ensures r.Some? <==> exists s :: s in sessions && s.qrToken == token
    ensures r.Some? ==> r.value in sessions && r.value.qrToken == token
  {
    if sessions == [] then None
    else if sessions[0].qrToken == token then Some(sessions[0])
    else FindByToken(sessions[1..], token)
  }

  /** A QR token no other session carries resolves to its own session, so a freshly
      scheduled session can be checked into at once. */
  lemma {:induction false} FreshTokenResolves(sessions: seq<TrainingSession>, s: TrainingSession)
    requires forall t :: t in sessions ==> t.qrToken != s.qrToken
    ensures FindByToken(sessions + [s], s.qrToken) == Some(s)
  {
    if sessions == [] {
      assert sessions + [s] == [s];
    } else {
      assert (sessions + [s])[1..] == sessions[1..] + [s];
      assert sessions[0] in sessions;
      FreshTokenResolves(sessions[1..], s);
    }
  }

  /** The check chain of `POST`: no signed-in user 401, no token 400, unknown token
      404, and 403 unless the user's membership in the session's club is student. */
  function CheckInDecision(user: Option<SessionUser>, token: Option<string>,
                           sessions: seq<TrainingSession>, ms: seq<Membership>): (r: Reply<TrainingSession>)
    ensures user.None? ==> r == Fail(401, Unauthorized)
    ensures user.Some? && !Truthy(token) ==> r == Fail(400, TokenRequired)
    ensures r == Fail(404, SessionNotFound) <==>
              user.Some? && Truthy(token) && forall s :: s in sessions ==> s.qrToken != token.value
    ensures r == Fail(403, OnlyStudents) <==>
              user.Some? && Truthy(token) && FindByToken(sessions, token.value).Some?
              && GetClubRole(ms, user.value.id, FindByToken(sessions, token.value).value.clubId) != Some(Student)
    ensures r.Ok? ==> user.Some? && r.body in sessions && r.body.qrToken == token.value
                      && GetClubRole(ms, user.value.id, r.body.clubId) == Some(Student)
                      && HoldsRoleIn(ms, user.value.id, r.body.clubId, {Student})
    ensures user.Some? && Truthy(token) && FindByToken(sessions, token.value).Some?
            && GetClubRole(ms, user.value.id, FindByToken(sessions, token.value).value.clubId) == Some(Student)
            ==> r == Ok(FindByToken(sessions, token.value).value)
  {
    if user.None? then Fail(401, Unauthorized)
    else if !Truthy(token) then Fail(400, TokenRequired)
    else
      var session := FindByToken(sessions, token.value);
      if session.None? then Fail(404, SessionNotFound)
      else
        var role := GetClubRole(ms, user.value.id, session.value.clubId);
        if role != Some(Student) then Fail(403, OnlyStudents)
        else
          ghost var i :| 0 <= i < |ms| && ms[i].userId == user.value.id && ms[i].clubId == session.value.clubId
                         && ms[i].role == role.value
                         && forall j :: 0 <= j < i ==> !(ms[j].userId == user.value.id && ms[j].clubId == session.value.clubId);
          assert ms[i] in ms;
          Ok(session.value)
  }

  /** The (session, student) pair has a check-in row. */
  predicate CheckedIn(attendance: seq<Attendance>, sessionId: string, studentId: string) {
    exists a :: a in attendance && a.sessionId == sessionId && a.studentId == studentId
  }

  /** The `(session_id, student_id)` uniqueness the table enforces. */
  predicate UniquePairs(attendance: seq<Attendance>) {
    forall i, j :: 0 <= i < j < |attendance| ==>
      !(attendance[i].sessionId == attendance[j].sessionId && attendance[i].studentId == attendance[j].studentId)
  }

  /** `insert … values ($1, $2, 'present') on conflict (session_id, student_id) do nothing`. */
  function CheckIn(attendance: seq<Attendance>, sessionId: string, studentId: string, now: int): (r: seq<Attendance>)
    ensures CheckedIn(r, sessionId, studentId)
    ensures CheckedIn(attendance, sessionId, studentId) ==> r == attendance
    ensures !CheckedIn(attendance, sessionId, studentId) ==>
              r == attendance + [Attendance(sessionId, studentId, "present", now)]
    ensures UniquePairs(attendance) ==> UniquePairs(r)
  {
    if CheckedIn(attendance, sessionId, studentId) then attendance
    else
      var row := Attendance(sessionId, studentId, "present", now);
      var r := attendance + [row];
      assert row in r;
      assert forall i :: 0 <= i < |attendance| ==> attendance[i] in attendance;
      r
  }

  /** Scanning the same code twice leaves the table as after the first scan. */
  lemma CheckInIdempotent(attendance: seq<Attendance>, sessionId: string, studentId: string, t1: int, t2: int)
    ensures CheckIn(CheckIn(attendance, sessionId, studentId, t1), sessionId, studentId, t2)
            == CheckIn(attendance, sessionId, studentId, t1)
  {
  }

  /** `POST`: a failed check writes nothing; success checks the user in (a repeat
      inserts nothing) and replies with the session id. */
  method Post(db: Database, user: Option<SessionUser>, token: Option<string>, now: int)
    returns (reply: Reply<string>)
    modifies db`attendance
    ensures var d := CheckInDecision(user, token, old(db.sessions), old(db.memberships));
            && (d.Fail? ==> reply == Fail(d.status, d.error) && db.attendance == old(db.attendance))
            && (d.Ok? ==> reply == Ok(d.body.id)
                          && db.attendance == CheckIn(old(db.attendance), d.body.id, user.value.id, now))
  {
    var d := CheckInDecision(user, token, db.sessions, db.memberships);
    if d.Fail? {
      return Fail(d.status, d.error);
    }
    db.attendance := CheckIn(db.attendance, d.body.id, user.value.id, now);
    reply := Ok(d.body.id);
  }
}
