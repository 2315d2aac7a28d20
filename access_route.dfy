/** The `GET /api/access` classification of src/app/api/access/route.ts: every
    request is answered 200 with one of three statuses, decided from the access
    context alone. */
module AccessRoute {
  import opened Js
  import opened Schema
  import opened Auth
  import opened Access

  datatype AccessStatus =
    | SignedOut
    | NoMembership(userId: string, userLabel: string)
    | Allowed(role: Role, clubs: seq<ClubAccess>, userId: string, userLabel: string)

  /** The HTTP status of the classification: always 200, signed-out included. */
  const AccessHttpStatus: nat := 200

  /** `GET`: signed out without a context; "no-membership" for a non-superadmin with
      no club; "allowed", with the context's role, clubs and identity, otherwise. */
  function Classify(access: Option<AccessContext>): (r: AccessStatus)
    ensures r.SignedOut? <==> access.None?
    ensures r.NoMembership? <==> access.Some? && !access.value.isSuperadmin && access.value.clubs == []
    ensures r.NoMembership? ==> r.userId == access.value.userId && r.userLabel == access.value.userLabel
    ensures r.Allowed? ==> access.Some? && r.role == access.value.role && r.clubs == access.value.clubs
                           && r.userId == access.value.userId && r.userLabel == access.value.userLabel
  {
    if access.None? then SignedOut
    else
      var a := access.value;
      if !a.isSuperadmin && |a.clubs| == 0 then NoMembership(a.userId, a.userLabel)
      else Allowed(a.role, a.clubs, a.userId, a.userLabel)
  }

  /** End to end from the session lookup and membership rows: a signed-in user is
      allowed exactly when a superadmin or holding at least one membership. */
  lemma AllowedExactlyForMembersAndSuperadmins(user: Option<SessionUser>, rows: seq<MembershipRow>)
    ensures Classify(GetAccessContext(user, rows)).Allowed?
            <==> user.Some? && (user.value.isSuperadmin || rows != [])
  {
  }

  /** A superadmin always reaches "allowed" with role superadmin, even though its
      club list is empty. */
  lemma SuperadminAlwaysAllowed(user: SessionUser, rows: seq<MembershipRow>)
    requires user.isSuperadmin
    ensures Classify(GetAccessContext(Some(user), rows)) == Allowed(Superadmin, [], user.id, UserLabel(user))
  {
  }

  /** The zero-membership "student" fallback role never reaches an "allowed" answer:
      an allowed student holds at least one membership, and every one is a student's. */
  lemma FallbackStudentNeverAllowed(user: SessionUser, rows: seq<MembershipRow>)
    requires Classify(GetAccessContext(Some(user), rows)).Allowed?
    requires Classify(GetAccessContext(Some(user), rows)).role == Student
    ensures rows != []
    ensures forall i :: 0 <= i < |rows| ==> rows[i].role == Student
  {
  }
}
