/** `POST /api/auth/signup` of src/app/api/auth/signup/route.ts: the same email
    normalisation as login, 400 for a missing credential, 409 for a registered
    email, then a profile insert followed by a session insert. The two inserts
    are separate statements, so a failure of the second leaves the first in
    place. Password hashing (bcrypt `hash`) is a parameter. */
module Signup {
  import opened Js
  import opened Schema
  import opened Auth
  import opened Login

  datatype SignupBody = SignupBody(email: Option<string>, password: Option<string>,
                                   fullName: Option<string>)

  /** Where a database statement inside the handler's `try` throws, if anywhere. */
  datatype SignupFault =
    | NoFault
    | LookupThrows          // the duplicate-email select
    | ProfileInsertThrows   // the profile insert
    | ProfileInsertNoRow    // the profile insert returns no row
    | SessionInsertThrows   // the session insert of createSession

  /** The validated profile fields: normalised email, password, `fullName || null`. */
  datatype NewProfile = NewProfile(email: string, password: string, fullName: Option<string>)

  const EmailTaken: string := "Email already registered."
  const Unexpected: string := "An unexpected error occurred."
  const NotCreated: string := "Unable to create user."

  /** `fullName || null` on `body?.fullName ?? ""`. */
  function StoredFullName(fullName: Option<string>): (r: Option<string>)
    ensures r.None? <==> !Truthy(fullName)
    ensures r.Some? ==> r == fullName
  {
    if Truthy(fullName) then fullName else None
  }

  /** The checks before any insert: 400 for a missing credential (before the table is
      read), 409 for an email already registered, else the profile to insert. */
  function Check(body: SignupBody, profiles: seq<Profile>): (r: Reply<NewProfile>)
    ensures r == Fail(400, CredentialsRequired)
            <==> BodyEmail(body.email) == "" || BodyPassword(body.password) == ""
    ensures r == Fail(409, EmailTaken)
            <==> BodyEmail(body.email) != "" && BodyPassword(body.password) != ""
                 && exists p :: p in profiles && p.email == BodyEmail(body.email)
    ensures r.Fail? ==> r.status == 400 || r.status == 409
    ensures BodyEmail(body.email) != "" && BodyPassword(body.password) != ""
            && (forall p :: p in profiles ==> p.email != BodyEmail(body.email))
            ==> r == Ok(NewProfile(BodyEmail(body.email), BodyPassword(body.password), StoredFullName(body.fullName)))
    ensures r.Ok? ==> r.body.email == BodyEmail(body.email) && r.body.email != ""
                      && (forall p :: p in profiles ==> p.email != r.body.email)
                      && r.body.password == BodyPassword(body.password) && r.body.password != ""
                      && r.body.fullName == StoredFullName(body.fullName)
  {
    var email := BodyEmail(body.email);
    var password := BodyPassword(body.password);
    if email == "" || password == "" then Fail(400, CredentialsRequired)
    else if FindByEmail(profiles, email).Some? then Fail(409, EmailTaken)
    else Ok(NewProfile(email, password, StoredFullName(body.fullName)))
  }

  /** Two sign-ups whose emails differ only in case or surrounding whitespace are the
      same account: after the first, the second is refused with 409. */
  lemma SecondSignupWithSameEmailRefused(b: SignupBody, profiles: seq<Profile>, p: Profile)
    requires Check(b, profiles).Ok?
    requires p.email == Check(b, profiles).body.email
    ensures Check(b, profiles + [p]) == Fail(409, EmailTaken)
  {
    assert p in profiles + [p];
  }

  /** `POST`. A validation failure or a duplicate writes nothing; any thrown error
      or an insert returning no row gives 500; on success exactly one profile and
      one session are created and the login cookie is set. */
  method Post(db: Database, body: SignupBody, hash: string -> string, fault: SignupFault,
              freshUserId: string, freshSessionId: string, now: int)
    returns (reply: Reply<AuthSuccess>)
    requires forall s :: s in db.userSessions ==> s.id != freshSessionId
    modifies db`profiles, db`userSessions
    ensures var c := Check(body, old(db.profiles));
            var created := Profile(freshUserId, if c.Ok? then c.body.email else "",
                                   if c.Ok? then hash(c.body.password) else "",
                                   if c.Ok? then c.body.fullName else None, false);
            && (c == Fail(400, CredentialsRequired) ==> reply == Fail(400, CredentialsRequired) && unchanged(db))
            && (c != Fail(400, CredentialsRequired) && fault == LookupThrows ==> reply == Fail(500, Unexpected) && unchanged(db))
            && (fault != LookupThrows && c == Fail(409, EmailTaken) ==> reply == Fail(409, EmailTaken) && unchanged(db))
            && (c.Ok? && fault == ProfileInsertThrows ==> reply == Fail(500, Unexpected) && unchanged(db))
            && (c.Ok? && fault == ProfileInsertNoRow ==> reply == Fail(500, NotCreated) && unchanged(db))
            && (c.Ok? && fault == SessionInsertThrows ==>
                  && reply == Fail(500, Unexpected)
                  && db.profiles == old(db.profiles) + [created]
                  && db.userSessions == old(db.userSessions))
            && (c.Ok? && fault == NoFault ==>
                  && db.profiles == old(db.profiles) + [created]
                  && db.userSessions == old(db.userSessions) + [SessionRow(freshSessionId, freshUserId, now + SessionTtlMs)]
                  && reply == Ok(AuthSuccess(ToPublic(created), CookieFor(freshSessionId, now + SessionTtlMs))))
  {
    var email := BodyEmail(body.email);
    var password := BodyPassword(body.password);
    if email == "" || password == "" {
      return Fail(400, CredentialsRequired);
    }
    // try {
    if fault == LookupThrows {
      return Fail(500, Unexpected);
    }
    if FindByEmail(db.profiles, email).Some? {
      return Fail(409, EmailTaken);
    }
    var passwordHash := hash(password);
    if fault == ProfileInsertThrows {
      return Fail(500, Unexpected);
    }
    if fault == ProfileInsertNoRow {
      return Fail(500, NotCreated);
    }
    var user := Profile(freshUserId, email, passwordHash, StoredFullName(body.fullName), false);
    db.profiles := db.profiles + [user];
    if fault == SessionInsertThrows {
      return Fail(500, Unexpected);
    }
    var sessionId, expiresAt := CreateSession(db, user.id, freshSessionId, now);
    reply := Ok(AuthSuccess(ToPublic(user), CookieFor(sessionId, expiresAt)));
    // } catch { 500 }
  }
}
