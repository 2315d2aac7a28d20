/** `GET` and `POST /api/sessions` of src/app/api/sessions/route.ts: training
    sessions are listed and scheduled by superadmins, admins and coaches; a
    non-superadmin only within clubs where they are admin or coach. */
module TrainingSessions {
  import opened Js
  import opened Schema
  import opened Sql
  import opened Access

  const Forbidden: string := "Forbidden."
  const FieldsRequired: string := "Title, start time, and club are required."
  const ClubNotFound: string := "Club not found."

  /** The coarse gate of both handlers. */
  predicate SchedulesSessions(access: Option<AccessContext>) {
    access.Some? && access.value.role in {Superadmin, Admin, Coach}
  }

  function StartsAt(s: TrainingSession): int { s.startsAt }

  /** The staff scope: the join on a membership with role admin or coach. */
  predicate StaffScope(ms: seq<Membership>, userId: string, s: TrainingSession) {
    HoldsRoleIn(ms, userId, s.clubId, {Admin, Coach})
  }

  /** The inner joins of `GET`: the session's club and its sport exist. */
  predicate Joined(clubs: seq<Club>, sports: seq<Sport>, s: TrainingSession) {
    FindClub(clubs, s.clubId).Some? && FindSport(sports, s.sportId).Some?
  }

  /** The sessions `GET` returns for the caller: the joined ones, all of them for a
      superadmin and the staff scope otherwise. */
  function Listed(a: AccessContext, ms: seq<Membership>, clubs: seq<Club>, sports: seq<Sport>)
    : TrainingSession -> bool {
    (s: TrainingSession) => Joined(clubs, sports, s) && (a.role == Superadmin || StaffScope(ms, a.userId, s))
  }

  /** `GET`: 403 for students and the signed-out; a superadmin sees every session,
      anyone else those of clubs where they are admin or coach; sessions whose club
      or sport is missing drop out of the joins; latest start first. */
  function List(access: Option<AccessContext>, ms: seq<Membership>, clubs: seq<Club>, sports: seq<Sport>,
                sessions: seq<TrainingSession>): (r: Reply<seq<TrainingSession>>)
    ensures r.Fail? <==> !SchedulesSessions(access)
    ensures r.Fail? ==> r == Fail(403, Forbidden)
    ensures r.Ok? ==> SortedDesc(r.body, StartsAt)
    ensures r.Ok? && access.value.role == Superadmin ==>
              forall s :: s in r.body <==> s in sessions && Joined(clubs, sports, s)
    ensures r.Ok? && access.value.role != Superadmin ==>
              forall s :: s in r.body <==>
                s in sessions && HoldsRoleIn(ms, access.value.userId, s.clubId, {Admin, Coach}) && Joined(clubs, sports, s)
    ensures r.Ok? ==> forall s :: multiset(r.body)[s] == if Listed(access.value, ms, clubs, sports)(s)
                                                          then multiset(sessions)[s] else 0
  {
    if !SchedulesSessions(access) then Fail(403, Forbidden)
    else
      var p := Listed(access.value, ms, clubs, sports);
      WhereMultiplicity(sessions, p);
      Ok(Select(sessions, p, StartsAt))
  }

  /** The JSON body; `startsAt` is the text handed to the database. */
  datatype SessionBody = SessionBody(title: Option<string>, startsAt: Option<string>,
                                     clubId: Option<string>, location: Option<string>,
                                     capacity: Option<int>)

  /** The values `POST` inserts. */
  datatype NewSession = NewSession(clubId: string, sportId: string, coachId: string, title: string,
                                   startsAt: string, location: Option<string>, capacity: Option<int>)

  /** `body?.title?.trim()`, empty when absent. */
  function TrimmedTitle(title: Option<string>): string {
    if title.Some? then Trim(title.value) else ""
  }

  /** `rows[0]` of `select sport_id from clubs where id = $1`. */
  function FindClub(clubs: seq<Club>, id: string): (r: Option<Club>)
    ensures r.Some? <==> exists c :: c in clubs && c.id == id
    ensures r.Some? ==> r.value in clubs && r.value.id == id
  {
    if clubs == [] then None
    else if clubs[0].id == id then Some(clubs[0])
    else FindClub(clubs[1..], id)
  }

  /** The sport a `join sports s on s.id = …` finds, if any. */
  function FindSport(sports: seq<Sport>, id: string): (r: Option<Sport>)
    ensures r.Some? <==> exists sp :: sp in sports && sp.id == id
    ensures r.Some? ==> r.value in sports && r.value.id == id
  {
    if sports == [] then None
    else if sports[0].id == id then Some(sports[0])
    else FindSport(sports[1..], id)
  }

  /** The check chain of `POST`: coarse role 403, missing field 400, unknown club
      404, then a non-superadmin must be admin or coach of that club (403). */
  function PostDecision(access: Option<AccessContext>, body: SessionBody, clubs: seq<Club>,
                        ms: seq<Membership>): (r: Reply<NewSession>)
    ensures !SchedulesSessions(access) ==> r == Fail(403, Forbidden)
    ensures r == Fail(400, FieldsRequired) <==>
              SchedulesSessions(access)
              && (TrimmedTitle(body.title) == "" || !Truthy(body.startsAt) || !Truthy(body.clubId))
    ensures r == Fail(404, ClubNotFound) <==>
              SchedulesSessions(access) && TrimmedTitle(body.title) != "" && Truthy(body.startsAt)
              && Truthy(body.clubId)
              && (FindClub(clubs, body.clubId.value).None? || FindClub(clubs, body.clubId.value).value.sportId == "")
    ensures r.Fail? ==> r.status in {400, 403, 404}
    ensures r.Ok? ==> SchedulesSessions(access)
                      && r.body.clubId == body.clubId.value
                      && r.body.title == Trim(body.title.value) && r.body.title != ""
                      && r.body.startsAt == body.startsAt.value
                      && r.body.coachId == access.value.userId
                      && (exists c :: c in clubs && c.id == r.body.clubId && c.sportId == r.body.sportId)
                      && r.body.sportId != ""
                      && r.body.location == TrimmedOrNull(body.location)
                      && r.body.capacity == body.capacity
    ensures r.Ok? && access.value.role != Superadmin ==>
              GetClubRole(ms, access.value.userId, r.body.clubId) in {Some(Admin), Some(Coach)}
    ensures SchedulesSessions(access) && access.value.role != Superadmin
            && r != Fail(400, FieldsRequired) && r != Fail(404, ClubNotFound)
            && GetClubRole(ms, access.value.userId, body.clubId.value) !in {Some(Admin), Some(Coach)}
            ==> r == Fail(403, Forbidden)
    ensures SchedulesSessions(access) && TrimmedTitle(body.title) != "" && Truthy(body.startsAt) && Truthy(body.clubId)
            && FindClub(clubs, body.clubId.value).Some? && FindClub(clubs, body.clubId.value).value.sportId != ""
            && (access.value.role == Superadmin
                || GetClubRole(ms, access.value.userId, body.clubId.value) in {Some(Admin), Some(Coach)})
            ==> r.Ok?
  {
    if !SchedulesSessions(access) then Fail(403, Forbidden)
    else
      var title := TrimmedTitle(body.title);
      if title == "" || !Truthy(body.startsAt) || !Truthy(body.clubId) then Fail(400, FieldsRequired)
      else
        var club := FindClub(clubs, body.clubId.value);
        if club.None? || club.value.sportId == "" then Fail(404, ClubNotFound)
        else if access.value.role != Superadmin
                && GetClubRole(ms, access.value.userId, body.clubId.value) !in {Some(Admin), Some(Coach)}
        then Fail(403, Forbidden)
        else Ok(NewSession(body.clubId.value, club.value.sportId, access.value.userId, title,
                           body.startsAt.value, TrimmedOrNull(body.location), body.capacity))
  }

  /** A session a coach or admin managed to schedule shows up in their own listing,
      provided the sport its club names exists (`POST` only checks that the club
      names one). */
  lemma ScheduledSessionIsListed(access: Option<AccessContext>, body: SessionBody, clubs: seq<Club>,
                                 sports: seq<Sport>, ms: seq<Membership>, sessions: seq<TrainingSession>,
                                 id: string, startsAt: int, token: string)
    requires PostDecision(access, body, clubs, ms).Ok?
    requires FindSport(sports, PostDecision(access, body, clubs, ms).body.sportId).Some?
    ensures var n := PostDecision(access, body, clubs, ms).body;
            var row := TrainingSession(id, n.clubId, n.sportId, n.coachId, n.title, startsAt,
                                       n.location, n.capacity, token);
            var l := List(access, ms, clubs, sports, sessions + [row]);
            l.Ok? && row in l.body
  {
    var n := PostDecision(access, body, clubs, ms).body;
    var row := TrainingSession(id, n.clubId, n.sportId, n.coachId, n.title, startsAt,
                               n.location, n.capacity, token);
    var c :| c in clubs && c.id == n.clubId && c.sportId == n.sportId;
    assert FindClub(clubs, row.clubId).Some?;
    StaffRowListed(access.value, ms, clubs, sports, row);
    ListedRowIsShown(access, ms, clubs, sports, sessions + [row], row);
  }

  /** A joined session of a club where the caller is admin or coach (any, for a
      superadmin) satisfies the listing's condition. */
  lemma StaffRowListed(a: AccessContext, ms: seq<Membership>, clubs: seq<Club>, sports: seq<Sport>,
                       row: TrainingSession)
    requires FindClub(clubs, row.clubId).Some? && FindSport(sports, row.sportId).Some?
    requires a.role == Superadmin || GetClubRole(ms, a.userId, row.clubId) in {Some(Admin), Some(Coach)}
    ensures Listed(a, ms, clubs, sports)(row)
  {
    if a.role != Superadmin {
      ClubRoleIsHeld(ms, a.userId, row.clubId, {Admin, Coach});
    }
  }

  /** A row of the table that satisfies the listing's condition is listed. */
  lemma ListedRowIsShown(access: Option<AccessContext>, ms: seq<Membership>, clubs: seq<Club>, sports: seq<Sport>,
                         sessions: seq<TrainingSession>, row: TrainingSession)
    requires SchedulesSessions(access) && Listed(access.value, ms, clubs, sports)(row)
    requires row in sessions
    ensures List(access, ms, clubs, sports, sessions).Ok? && row in List(access, ms, clubs, sports, sessions).body
  {
  }

  /** `POST`: a failed check writes nothing; success inserts exactly one session
      whose sport is the club's and whose coach is the caller. The database assigns
      the id and the QR token (`freshId`, `freshToken`) and converts the start text
      to a timestamp (`timestampOf`). */
  method Post(db: Database, access: Option<AccessContext>, body: SessionBody,
              timestampOf: string -> int, freshId: string, freshToken: string)
    returns (reply: Reply<string>)
    requires forall s :: s in db.sessions ==> s.qrToken != freshToken
    modifies db`sessions
    ensures var d := PostDecision(access, body, old(db.clubs), old(db.memberships));
            && (d.Fail? ==> reply == Fail(d.status, d.error) && db.sessions == old(db.sessions))
            && (d.Ok? ==> reply == Ok(freshId)
                          && db.sessions == old(db.sessions) + [TrainingSession(freshId, d.body.clubId, d.body.sportId,
                                                                                d.body.coachId, d.body.title,
                                                                                timestampOf(d.body.startsAt),
                                                                                d.body.location, d.body.capacity,
                                                                                freshToken)])
    ensures forall s, t :: s in db.sessions && t in old(db.sessions) && s.qrToken == t.qrToken ==> s in old(db.sessions)
  {
    var d := PostDecision(access, body, db.clubs, db.memberships);
    if d.Fail? {
      return Fail(d.status, d.error);
    }
    var n := d.body;
    db.sessions := db.sessions + [TrainingSession(freshId, n.clubId, n.sportId, n.coachId, n.title,
                                                  timestampOf(n.startsAt), n.location, n.capacity, freshToken)];
    reply := Ok(freshId);
  }
}
