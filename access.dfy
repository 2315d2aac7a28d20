/** Role resolution of src/lib/server/access.ts. A signed-in user's membership
    rows (one per club, each with its own club role) collapse into one
    dashboard role with the priority admin > coach > student; a superadmin
    bypasses club scoping altogether. `GetClubRole` is the per-club re-check
    that mutating handlers use instead of the coarse role. */
module Access {
  import opened Js
  import opened Schema
  import opened Auth

  datatype ClubAccess = ClubAccess(id: string, name: string, sport: Option<string>, role: ClubRole)

  datatype AccessContext = AccessContext(userId: string, userLabel: string, role: Role,
                                         clubs: seq<ClubAccess>, isSuperadmin: bool)

  /** One row of the membership query (`club_memberships` joined with `clubs` and
      `sports`, `where cm.user_id = $1 order by c.name`); the rows are an input here,
      already in club-name order. */
  datatype MembershipRow = MembershipRow(clubId: string, clubName: string, role: ClubRole,
                                         sportName: Option<string>)

  /** `roleOrder`: the club roles from highest to lowest. */
  const RoleOrder: seq<ClubRole> := [Admin, Coach, Student]

  /** Position of a club role in the priority order, higher is stronger. */
  function Rank(r: ClubRole): nat {
    match r
    case Admin => 2
    case Coach => 1
    case Student => 0
  }

  /** The loop of `pickPrimaryRole`: the first role of `order` that occurs in
      `roles`, or "student" when none does. */
  function FirstPresent(order: seq<ClubRole>, roles: seq<ClubRole>): (r: ClubRole)
    ensures (forall k :: 0 <= k < |order| ==> order[k] !in roles) ==> r == Student
    ensures r in roles || r == Student
    ensures order != [] && order[0] in roles ==> r == order[0]
    ensures (exists k :: 0 <= k < |order| && order[k] in roles) ==>
              exists k :: 0 <= k < |order| && order[k] == r && r in roles
                          && forall j :: 0 <= j < k ==> order[j] !in roles
  {
    if order == [] then Student
    else if order[0] in roles then order[0]
    else
      var r := FirstPresent(order[1..], roles);
      assert forall k :: 0 < k < |order| ==> order[k] == order[1..][k - 1];
      r
  }

  /** `pickPrimaryRole`: admin if any role is admin, else coach if any is coach,
      else student. */
  function PickPrimaryRole(roles: seq<ClubRole>): (r: ClubRole)
    ensures r == Admin <==> Admin in roles
    ensures r == Coach <==> Admin !in roles && Coach in roles
    ensures r == Student <==> Admin !in roles && Coach !in roles
    ensures roles == [] ==> r == Student
    ensures roles != [] ==> r in roles
    ensures forall x :: x in roles ==> Rank(x) <= Rank(r)
  {
    var r := FirstPresent(RoleOrder, roles);
    assert RoleOrder[1..] == [Coach, Student] && RoleOrder[1..][1..] == [Student];
    assert Admin !in roles ==> r == FirstPresent([Coach, Student], roles);
    assert Admin !in roles && Coach !in roles ==> r == FirstPresent([Student], roles);
    assert roles != [] ==> roles[0] in roles;
    r
  }

  /** `user.full_name?.trim() || user.email || "User"`. */
  function UserLabel(u: SessionUser): (shown: string)
    ensures shown != ""
    ensures u.fullName.Some? && Trim(u.fullName.value) != "" ==> shown == Trim(u.fullName.value)
    ensures (u.fullName.None? || Trim(u.fullName.value) == "") && u.email != "" ==> shown == u.email
    ensures (u.fullName.None? || Trim(u.fullName.value) == "") && u.email == "" ==> shown == "User"
  {
    var name := if u.fullName.Some? then Trim(u.fullName.value) else "";
    if name != "" then name else if u.email != "" then u.email else "User"
  }

  function ToClubAccess(row: MembershipRow): ClubAccess {
    ClubAccess(row.clubId, row.clubName, row.sportName, row.role)
  }

  /** `rows.map(...)`: one club entry per membership row, in row order. */
  function ClubsOf(rows: seq<MembershipRow>): (clubs: seq<ClubAccess>)
    ensures |clubs| == |rows|
    ensures forall i :: 0 <= i < |rows| ==> clubs[i] == ClubAccess(rows[i].clubId, rows[i].clubName, rows[i].sportName, rows[i].role)
  {
    seq(|rows|, i requires 0 <= i < |rows| => ToClubAccess(rows[i]))
  }

  function RolesOf(clubs: seq<ClubAccess>): (roles: seq<ClubRole>)
    ensures |roles| == |clubs|
    ensures forall i :: 0 <= i < |clubs| ==> roles[i] == clubs[i].role
  {
    seq(|clubs|, i requires 0 <= i < |clubs| => clubs[i].role)
  }

  /** `getAccessContext`, given the session lookup and the membership query's rows. */
  function GetAccessContext(user: Option<SessionUser>, rows: seq<MembershipRow>): (ctx: Option<AccessContext>)
    ensures user.None? <==> ctx.None?
    ensures ctx.Some? ==> ctx.value.userId == user.value.id && ctx.value.userLabel == UserLabel(user.value)
    ensures ctx.Some? ==> ctx.value.isSuperadmin == user.value.isSuperadmin
    ensures ctx.Some? && user.value.isSuperadmin ==> ctx.value.role == Superadmin && ctx.value.clubs == []
    ensures ctx.Some? && !user.value.isSuperadmin ==>
              && ctx.value.role != Superadmin
              && |ctx.value.clubs| == |rows|
              && (forall i :: 0 <= i < |rows| ==> ctx.value.clubs[i] == ClubAccess(rows[i].clubId, rows[i].clubName, rows[i].sportName, rows[i].role))
              && (rows == [] ==> ctx.value.role == Student)
              && (ctx.value.role == Admin <==> exists i :: 0 <= i < |rows| && rows[i].role == Admin)
              && (ctx.value.role == Coach <==> (forall i :: 0 <= i < |rows| ==> rows[i].role != Admin)
                                               && exists i :: 0 <= i < |rows| && rows[i].role == Coach)
  {
    if user.None? then None
    else
      var u := user.value;
      var shown := UserLabel(u);
      if u.isSuperadmin then Some(AccessContext(u.id, shown, Superadmin, [], true))
      else
        var clubs := ClubsOf(rows);
        if |clubs| == 0 then Some(AccessContext(u.id, shown, Student, [], false))
        else
          var roles := RolesOf(clubs);
          var role := PickPrimaryRole(roles);
          assert Admin in roles <==> exists i :: 0 <= i < |rows| && rows[i].role == Admin;
          assert Coach in roles <==> exists i :: 0 <= i < |rows| && rows[i].role == Coach;
          Some(AccessContext(u.id, shown, role, clubs, false))
  }

  /** `getClubRole`: the role of the first (user, club) membership row, or null. */
  function GetClubRole(ms: seq<Membership>, userId: string, clubId: string): (r: Option<ClubRole>)
    ensures r.None? <==> forall m :: m in ms ==> !(m.userId == userId && m.clubId == clubId)
    ensures r.Some? ==> exists i :: 0 <= i < |ms| && ms[i].userId == userId && ms[i].clubId == clubId
                                    && ms[i].role == r.value
                                    && forall j :: 0 <= j < i ==> !(ms[j].userId == userId && ms[j].clubId == clubId)
  {
    if ms == [] then None
    else if ms[0].userId == userId && ms[0].clubId == clubId then Some(ms[0].role)
    else
      var r := GetClubRole(ms[1..], userId, clubId);
      assert forall m :: m in ms ==> m == ms[0] || m in ms[1..];
      if r.Some? then
        ghost var i :| 0 <= i < |ms[1..]| && ms[1..][i].userId == userId && ms[1..][i].clubId == clubId
                       && ms[1..][i].role == r.value
                       && forall j :: 0 <= j < i ==> !(ms[1..][j].userId == userId && ms[1..][j].clubId == clubId);
        assert ms[i + 1] == ms[1..][i];
        assert forall j :: 1 <= j < i + 1 ==> ms[j] == ms[1..][j - 1];
        r
      else r
  }

  /** The per-club role is held: some membership row of the pair carries it. */
  lemma ClubRoleIsHeld(ms: seq<Membership>, userId: string, clubId: string, roles: set<ClubRole>)
    requires GetClubRole(ms, userId, clubId).Some? && GetClubRole(ms, userId, clubId).value in roles
    ensures HoldsRoleIn(ms, userId, clubId, roles)
  {
    var i :| 0 <= i < |ms| && ms[i].userId == userId && ms[i].clubId == clubId
             && ms[i].role == GetClubRole(ms, userId, clubId).value
             && forall j :: 0 <= j < i ==> !(ms[j].userId == userId && ms[j].clubId == clubId);
    assert ms[i] in ms;
  }

  /** When the (user, club) pair has exactly one membership row, as the table's
      natural key implies, the per-club role is that row's role. */
  lemma ClubRoleOfUniqueRow(ms: seq<Membership>, m: Membership)
    requires m in ms
    requires forall x :: x in ms && x.userId == m.userId && x.clubId == m.clubId ==> x == m
    ensures GetClubRole(ms, m.userId, m.clubId) == Some(m.role)
  {
  }
}
