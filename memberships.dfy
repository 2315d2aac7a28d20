/** `GET` and `POST /api/memberships` of src/app/api/memberships/route.ts. Only a
    superadmin or an admin may list or grant memberships; an admin sees and grants
    only within clubs where they hold an admin membership, and can never grant
    the admin role. */
module Memberships {
  import opened Js
  import opened Schema
  import opened Sql
  import opened Auth
  import opened Access
  import TrainingSessions

  const Forbidden: string := "Forbidden."
  const FieldsRequired: string := "Club, user, and role are required."
  const RoleNotAllowed: string := "Role not allowed."

  /** `allowedRolesFor`: the club roles a caller may grant. */
  function AllowedRolesFor(role: Role): (allowed: set<ClubRole>)
    ensures Coach in allowed && Student in allowed
    ensures Admin in allowed <==> role == Superadmin
  {
    if role == Superadmin then {Admin, Coach, Student} else {Coach, Student}
  }

  /** The coarse gate of both handlers. */
  predicate ManagesMembers(access: Option<AccessContext>) {
    access.Some? && (access.value.role == Superadmin || access.value.role == Admin)
  }

  function CreatedAt(m: Membership): int { m.createdAt }

  /** The admin scope of `GET`: the join on `cm_admin`. */
  predicate AdminScope(ms: seq<Membership>, userId: string, m: Membership) {
    HoldsRoleIn(ms, userId, m.clubId, {Admin})
  }

  /** The inner joins of `GET`: the membership's club exists, so does that club's
      sport, and so does the member's profile. */
  predicate Joined(clubs: seq<Club>, sports: seq<Sport>, profiles: seq<Profile>, m: Membership) {
    var c := TrainingSessions.FindClub(clubs, m.clubId);
    c.Some? && TrainingSessions.FindSport(sports, c.value.sportId).Some? && FindProfile(profiles, m.userId).Some?
  }

  /** The rows `GET` returns for the caller: the joined ones, all of them for a
      superadmin and those in the admin scope otherwise. */
  function Listed(a: AccessContext, ms: seq<Membership>, clubs: seq<Club>, sports: seq<Sport>,
                  profiles: seq<Profile>): Membership -> bool {
    (m: Membership) => Joined(clubs, sports, profiles, m) && (a.role == Superadmin || AdminScope(ms, a.userId, m))
  }

  /** `GET`: 403 below admin; a superadmin gets every membership, an admin those of
      clubs they administer; rows whose club, sport or profile is missing drop out
      of the joins; newest first. */
  function List(access: Option<AccessContext>, ms: seq<Membership>, clubs: seq<Club>, sports: seq<Sport>,
                profiles: seq<Profile>): (r: Reply<seq<Membership>>)
    ensures r.Fail? <==> !ManagesMembers(access)
    ensures r.Fail? ==> r == Fail(403, Forbidden)
    ensures r.Ok? ==> SortedDesc(r.body, CreatedAt)
    ensures r.Ok? && access.value.role == Superadmin ==>
              forall m :: m in r.body <==> m in ms && Joined(clubs, sports, profiles, m)
    ensures r.Ok? && access.value.role == Admin ==>
              forall m :: m in r.body <==>
                m in ms && HoldsRoleIn(ms, access.value.userId, m.clubId, {Admin}) && Joined(clubs, sports, profiles, m)
    ensures r.Ok? ==> forall m :: multiset(r.body)[m] == if Listed(access.value, ms, clubs, sports, profiles)(m)
                                                          then multiset(ms)[m] else 0
  {
    if !ManagesMembers(access) then Fail(403, Forbidden)
    else
      var p := Listed(access.value, ms, clubs, sports, profiles);
      WhereMultiplicity(ms, p);
      Ok(Select(ms, p, CreatedAt))
  }

  /** The JSON body; None stands for an absent or null field. */
  datatype MembershipBody = MembershipBody(clubId: Option<string>, userId: Option<string>, role: Option<string>)

  /** The row `POST` inserts. */
  datatype NewMembership = NewMembership(clubId: string, userId: string, role: ClubRole)

  predicate FieldsPresent(body: MembershipBody) {
    Truthy(body.clubId) && Truthy(body.userId) && Truthy(body.role)
  }

  /** The check chain of `POST`: coarse role 403, missing field 400, role not
      grantable 403, an admin without an admin membership in the club 403. */
  function PostDecision(access: Option<AccessContext>, body: MembershipBody,
                        ms: seq<Membership>): (r: Reply<NewMembership>)
    ensures !ManagesMembers(access) ==> r == Fail(403, Forbidden)
    ensures r == Fail(400, FieldsRequired) <==> ManagesMembers(access) && !FieldsPresent(body)
    ensures r == Fail(403, RoleNotAllowed) <==>
              ManagesMembers(access) && FieldsPresent(body)
              && forall c: ClubRole :: c in AllowedRolesFor(access.value.role) ==> RoleName(c) != body.role.value
    ensures r.Fail? ==> r.status == 400 || r.status == 403
    ensures r.Ok? ==> ManagesMembers(access) && FieldsPresent(body)
                      && r.body.clubId == body.clubId.value && r.body.userId == body.userId.value
                      && RoleName(r.body.role) == body.role.value
                      && r.body.role in AllowedRolesFor(access.value.role)
    ensures r.Ok? && access.value.role == Admin ==>
              GetClubRole(ms, access.value.userId, r.body.clubId) == Some(Admin)
    ensures ManagesMembers(access) && FieldsPresent(body)
            && (exists c: ClubRole :: c in AllowedRolesFor(access.value.role) && RoleName(c) == body.role.value)
            && (access.value.role == Superadmin || GetClubRole(ms, access.value.userId, body.clubId.value) == Some(Admin))
            ==> r.Ok?
    ensures ManagesMembers(access) && FieldsPresent(body)
            && (exists c: ClubRole :: c in AllowedRolesFor(access.value.role) && RoleName(c) == body.role.value)
            && access.value.role == Admin && GetClubRole(ms, access.value.userId, body.clubId.value) != Some(Admin)
            ==> r == Fail(403, Forbidden)
  {
    if !ManagesMembers(access) then Fail(403, Forbidden)
    else if !FieldsPresent(body) then Fail(400, FieldsRequired)
    else
      var a := access.value;
      var role := ParseClubRole(body.role.value);
      if role.None? || role.value !in AllowedRolesFor(a.role) then Fail(403, RoleNotAllowed)
      else if a.role == Admin && GetClubRole(ms, a.userId, body.clubId.value) != Some(Admin) then Fail(403, Forbidden)
      else Ok(NewMembership(body.clubId.value, body.userId.value, role.value))
  }

  /** Whatever the body and table, an admin's `POST` never grants the admin role. */
  lemma AdminCannotGrantAdmin(access: Option<AccessContext>, body: MembershipBody, ms: seq<Membership>)
    requires access.Some? && access.value.role == Admin
    ensures var r := PostDecision(access, body, ms);
            r.Ok? ==> r.body.role != Admin
    ensures Truthy(body.clubId) && Truthy(body.userId) && body.role == Some("admin")
            ==> PostDecision(access, body, ms) == Fail(403, RoleNotAllowed)
  {
  }

  /** A membership an admin managed to create lies in a club that admin administers,
      so it shows up in that admin's own listing, provided the joins find its club,
      the club's sport and the member's profile (`POST` checks none of them). */
  lemma GrantedMembershipIsListed(access: Option<AccessContext>, body: MembershipBody, ms: seq<Membership>,
                                  clubs: seq<Club>, sports: seq<Sport>, profiles: seq<Profile>,
                                  id: string, now: int)
    requires PostDecision(access, body, ms).Ok?
    requires TrainingSessions.FindClub(clubs, body.clubId.value).Some?
    requires TrainingSessions.FindSport(sports, TrainingSessions.FindClub(clubs, body.clubId.value).value.sportId).Some?
    requires FindProfile(profiles, body.userId.value).Some?
    ensures var n := PostDecision(access, body, ms).body;
            var row := Membership(id, n.clubId, n.userId, n.role, now);
            var l := List(access, ms + [row], clubs, sports, profiles);
            l.Ok? && row in l.body
  {
    var n := PostDecision(access, body, ms).body;
    var row := Membership(id, n.clubId, n.userId, n.role, now);
    var all := ms + [row];
    assert row in all;
    assert Joined(clubs, sports, profiles, row);
    if access.value.role == Admin {
      var i :| 0 <= i < |ms| && ms[i].userId == access.value.userId && ms[i].clubId == n.clubId
               && ms[i].role == Admin
               && forall j :: 0 <= j < i ==> !(ms[j].userId == access.value.userId && ms[j].clubId == n.clubId);
      assert ms[i] in all;
      assert HoldsRoleIn(all, access.value.userId, row.clubId, {Admin});
    }
  }

  /** `POST`: a failed check writes nothing; success inserts exactly one
      (club, user, role) row and replies with its id. */
  method Post(db: Database, access: Option<AccessContext>, body: MembershipBody,
              freshId: string, now: int)
    returns (reply: Reply<string>)
    modifies db`memberships
    ensures var d := PostDecision(access, body, old(db.memberships));
            && (d.Fail? ==> reply == Fail(d.status, d.error) && db.memberships == old(db.memberships))
            && (d.Ok? ==> reply == Ok(freshId)
                          && db.memberships == old(db.memberships) + [Membership(freshId, d.body.clubId, d.body.userId, d.body.role, now)])
  {
    var d := PostDecision(access, body, db.memberships);
    if d.Fail? {
      return Fail(d.status, d.error);
    }
    db.memberships := db.memberships + [Membership(freshId, d.body.clubId, d.body.userId, d.body.role, now)];
    reply := Ok(freshId);
  }
}
